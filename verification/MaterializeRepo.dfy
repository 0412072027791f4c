/** The store as tables that prepared statements change, and the two replay loops. */
module MaterializeRepo {
  import opened Basics
  import opened Texts
  import opened VaultEvents
  import opened Materializer
  import opened StoreTheorems

  class Database {
    var contextEntries: map<Text, Row>
    var contextEntriesFts: seq<IndexRow>
    var contextEdges: seq<Edge>
    var contextCandidates: map<Text, Candidate>

    function View(): Store
      reads this
    {
      Store(contextEntries, contextEntriesFts, contextEdges, contextCandidates)
    }

    /** `resetStore` */
    constructor ()
      ensures View() == EMPTY
    {
      contextEntries, contextEntriesFts, contextEdges, contextCandidates := map[], [], [], map[];
    }

    /** `DELETE FROM context_entries_fts WHERE id = ?` */
    method DeleteFts(id: Text)
      modifies this`contextEntriesFts
      ensures contextEntriesFts == WithoutId(old(contextEntriesFts), id)
    {
      var kept, i := [], 0;
      ghost var rows := contextEntriesFts;
      while i < |contextEntriesFts|
        invariant 0 <= i <= |rows| && contextEntriesFts == rows
        invariant kept == WithoutId(rows[..i], id)
      {
        assert rows[..i + 1][..i] == rows[..i];
        if contextEntriesFts[i].id != id {
          kept := kept + [contextEntriesFts[i]];
        }
        i := i + 1;
      }
      assert rows[..i] == rows;
      contextEntriesFts := kept;
    }

    method InsertEdges(id: Text, targets: seq<Text>)
      modifies this`contextEdges
      ensures contextEdges == old(contextEdges) + AppliesTo(id, targets)
    {
      var i := 0;
      while i < |targets|
        invariant 0 <= i <= |targets|
        invariant contextEdges == old(contextEdges) + AppliesTo(id, targets)[..i]
      {
        contextEdges := contextEdges + [Edge(id, "applies_to", targets[i])];
        i := i + 1;
      }
    }

    /** `UPDATE context_candidates SET ... WHERE id = @id AND status ...` */
    method UpdateCandidate(act: Act)
      requires Transitions(act)
      modifies this`contextCandidates
      ensures View() == Apply(old(View()), act, [])
    {
      if act.id !in contextCandidates {
        return;
      }
      var c := contextCandidates[act.id];
      match act {
        case CandidateAssigned(_, reviewer) =>
          if !(c.status.Approved? || c.status.Rejected? || c.status.Tombstoned?) {
            c := c.(status := Assigned, assignedTo := Some(reviewer));
          }
        case CandidateApproved(_, who) =>
          if !(c.status.Rejected? || c.status.Tombstoned?) {
            c := c.(status := Approved, reviewedBy := Some(who));
          }
        case CandidateRejected(_, who, reason) =>
          if !c.status.Approved? {
            c := c.(status := Rejected, reviewedBy := Some(who), reviewReason := Some(reason));
          }
        case CandidateTombstoned(_, who, reason) =>
          if !c.status.Approved? {
            c := c.(status := Tombstoned, reviewedBy := Some(who), reviewReason := Some(reason));
          }
      }
      contextCandidates := contextCandidates[act.id := c];
    }

    /** The body of the second loop, for a payload that opened. */
    method Run(act: Act, eventId: Text)
      modifies this
      ensures View() == Apply(old(View()), act, eventId)
    {
      hide WithoutId, AppliesTo, Transition;
      match act {
        case EntryApproved(entry, targets) =>
          contextEntries := contextEntries[entry.id := Row(entry, None)];
          DeleteFts(entry.id);
          contextEntriesFts := contextEntriesFts + [IndexRow(entry.id, entry.title, entry.body)];
          InsertEdges(entry.id, targets);
        case EntryProposed(p) =>
          contextCandidates := contextCandidates[p.id := Candidate(p, eventId, p.status, None, None, None)];
        case EntrySuperseded(id, replacement) =>
          if id in contextEntries {
            contextEntries := contextEntries[id := contextEntries[id].(supersededBy := Some(replacement))];
          }
          contextEdges := contextEdges + [Edge(id, "superseded_by", replacement)];
        case _ =>
          UpdateCandidate(act);
      }
    }

    /** `SELECT e.* FROM fts JOIN entries ... WHERE MATCH AND superseded_by IS NULL` */
    method Search(matches: (Text, Text) -> bool) returns (found: seq<Row>)
      ensures found == SearchEntries(View(), matches)
    {
      found := [];
      var i := 0;
      ghost var index := contextEntriesFts;
      while i < |contextEntriesFts|
        invariant 0 <= i <= |index|
        invariant found == Found(View(), index[..i], matches)
      {
        var row := contextEntriesFts[i];
        assert index[..i + 1][..i] == index[..i];
        if matches(row.title, row.body) && row.id in contextEntries && contextEntries[row.id].supersededBy.None? {
          found := found + [contextEntries[row.id]];
        }
        i := i + 1;
      }
      assert index[..i] == index;
    }
  }

  /** The reader's replica of a repository: its log, its key file and its database. */
  class Replica {
    var events: seq<Event>
    var keys: Keys
    var db: Database

    constructor ()
      ensures events == [] && keys == map[] && db.View() == EMPTY && fresh(db)
    {
      events, keys := [], map[];
      db := new Database();
    }

    /** On a failure the transaction and the key file are left alone, but the database has been reset. */
    method MaterializeSync(r: Reader, publicKeys: PublicKeys) returns (failure: Option<string>)
      modifies this`keys, this`db
      ensures fresh(db)
      ensures match Materialize(events, r, publicKeys, old(keys))
              case Failed(m) => failure == Some(m) && keys == old(keys) && db.View() == EMPTY
              case Ready(all, store) => failure == None && keys == all && db.View() == store
    {
      db := new Database();
      var epochs, i := keys, 0;
      assert events[..0] == [];
      while i < |events|
        invariant 0 <= i <= |events|
        invariant SyncKeys(events[..i], r, publicKeys, keys) == Ok(epochs)
      {
        var event := events[i];
        assert events[..i + 1][..i] == events[..i];
        if !(event.actor in publicKeys && publicKeys[event.actor] == event.signer) {
          FailurePersists(events, i + 1, r, publicKeys, keys);
          return Some(BAD_SIGNATURE);
        }
        if event.Grant? && event.recipient == r.main.name {
          if event.envelope.hpke {
            if event.epoch !in epochs {
              FailurePersists(events, i + 1, r, publicKeys, keys);
              return Some(NEEDS_ASYNC);
            }
          } else if Unwraps(r.main, event.envelope) {
            epochs := epochs[event.epoch := event.envelope.key];
          }
        }
        i := i + 1;
      }
      assert events[..i] == events;
      ReplayInto(db, events, r, epochs);
      keys := epochs;
      failure := None;
    }

    method MaterializeHpke(r: Reader, publicKeys: PublicKeys) returns (failure: Option<string>)
      modifies this`keys, this`db
      ensures keys == match MaterializeAsync(events, r, publicKeys, old(keys))
                      case Failed(_) => KeysWritten(events, r, publicKeys, old(keys))
                      case Ready(all, _) => all
      ensures match MaterializeAsync(events, r, publicKeys, old(keys))
              case Failed(m) => failure == Some(m)
              case Ready(_, store) => failure == None && db.View() == store
    {
      var epochs, i := keys, 0;
      assert events[..0] == [];
      while i < |events|
        invariant 0 <= i <= |events|
        invariant AllSigned(events[..i], publicKeys) && epochs == AsyncKeys(events[..i], r, keys)
      {
        var event := events[i];
        assert events[..i + 1][..i] == events[..i] && events[..i + 1] == events[..i] + [event];
        if !(event.actor in publicKeys && publicKeys[event.actor] == event.signer) {
          assert event in events && !AllSigned(events, publicKeys);
          return Some(BAD_SIGNATURE);
        }
        if event.Grant? {
          var who := FirstNamed([r.main] + r.others, event.recipient);
          if who.Some? && Unwraps(who.value, event.envelope) {
            epochs := epochs[event.epoch := event.envelope.key];
          }
        }
        i := i + 1;
      }
      assert events[..i] == events;
      keys := epochs;
      failure := MaterializeSync(r, publicKeys);
    }
  }

  lemma {:induction false} FailurePersists(log: seq<Event>, i: nat, r: Reader, publicKeys: PublicKeys, keys: Keys)
    requires i <= |log| && SyncKeys(log[..i], r, publicKeys, keys).Err?
    ensures SyncKeys(log, r, publicKeys, keys) == SyncKeys(log[..i], r, publicKeys, keys)
  {
    if i == |log| {
      assert log[..i] == log;
    } else {
      assert log[..|log| - 1][..i] == log[..i];
      FailurePersists(log[..|log| - 1], i, r, publicKeys, keys);
    }
  }

  /** The second loop. */
  method ReplayInto(db: Database, events: seq<Event>, r: Reader, epochs: Keys)
    requires db.View() == EMPTY
    modifies db
    ensures db.View() == Replay(events, r, epochs)
  {
    hide Apply;
    var i := 0;
    assert events[..0] == [];
    while i < |events|
      invariant 0 <= i <= |events|
      invariant db.View() == Replay(events[..i], r, epochs)
    {
      var event := events[i];
      assert events[..i + 1][..i] == events[..i];
      if Decryptable(event, r, epochs) {
        db.Run(event.act, event.id);
      }
      i := i + 1;
    }
    assert events[..i] == events;
  }
}
