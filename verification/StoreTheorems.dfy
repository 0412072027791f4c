/** What the replayed store says about the log: entries, the full-text index, search and candidates. */
module StoreTheorems {
  import opened Basics
  import opened Texts
  import opened VaultEvents
  import opened Materializer

  // ----- the index -----

  predicate DistinctIndex(index: seq<IndexRow>) {
    forall i, j :: 0 <= i < j < |index| ==> index[i].id != index[j].id
  }

  function Indexed(entry: Entry): IndexRow {
    IndexRow(entry.id, entry.title, entry.body)
  }

  /** One index row per entry, with the entry's title and body, and no other row. */
  ghost predicate IndexMatches(entries: map<Text, Row>, index: seq<IndexRow>) {
    && DistinctIndex(index)
    && (forall id :: id in entries ==> entries[id].entry.id == id && Indexed(entries[id].entry) in index)
    && (forall row :: row in index ==> row.id in entries)
  }

  lemma {:induction false} WithoutIdIs(index: seq<IndexRow>, id: Text)
    requires DistinctIndex(index)
    ensures DistinctIndex(WithoutId(index, id))
    ensures forall row :: row in WithoutId(index, id) <==> row in index && row.id != id
  {
    if index != [] {
      var init, last := index[..|index| - 1], index[|index| - 1];
      assert index == init + [last];
      WithoutIdIs(init, id);
      forall row | row in WithoutId(init, id) ensures row.id != last.id {
        assert row in init;
      }
    }
  }

  lemma ApproveIndex(s: Store, entry: Entry, targets: seq<Text>, eventId: Text)
    requires IndexMatches(s.entries, s.index)
    ensures var t := Apply(s, EntryApproved(entry, targets), eventId); IndexMatches(t.entries, t.index)
  {
    WithoutIdIs(s.index, entry.id);
    var t := Apply(s, EntryApproved(entry, targets), eventId);
    var kept := WithoutId(s.index, entry.id);
    assert t.index == kept + [Indexed(entry)];
    forall i | 0 <= i < |kept| ensures kept[i].id != entry.id {
      assert kept[i] in kept;
    }
  }

  lemma ApplyIndex(s: Store, act: Act, eventId: Text)
    requires IndexMatches(s.entries, s.index)
    ensures var t := Apply(s, act, eventId); IndexMatches(t.entries, t.index)
  {
    if act.EntryApproved? {
      ApproveIndex(s, act.entry, act.appliesTo, eventId);
    }
  }

  lemma {:induction false} ReplayIndex(log: seq<Event>, r: Reader, keys: Keys)
    ensures var s := Replay(log, r, keys); IndexMatches(s.entries, s.index)
  {
    hide Apply, IndexMatches;
    if log != [] {
      var e := log[|log| - 1];
      ReplayIndex(log[..|log| - 1], r, keys);
      if Decryptable(e, r, keys) {
        ApplyIndex(Replay(log[..|log| - 1], r, keys), e.act, e.id);
      }
    } else {
      EmptyMatches();
    }
  }

  lemma EmptyMatches()
    ensures IndexMatches(EMPTY.entries, EMPTY.index)
  {
  }

  // ----- entries -----

  predicate Approves(e: Event, r: Reader, keys: Keys, id: Text) {
    Decryptable(e, r, keys) && e.act.EntryApproved? && e.act.entry.id == id
  }

  predicate Supersedes(e: Event, r: Reader, keys: Keys, id: Text) {
    Decryptable(e, r, keys) && e.act.EntrySuperseded? && e.act.id == id
  }

  /** The last decryptable event that approves the entry, and what superseded it since. */
  function LastWord(log: seq<Event>, r: Reader, keys: Keys, id: Text): Option<Row> {
    if log == [] then None
    else
      var e := log[|log| - 1];
      var before := LastWord(log[..|log| - 1], r, keys, id);
      if Approves(e, r, keys, id) then Some(Row(e.act.entry, None))
      else if Supersedes(e, r, keys, id) && before.Some? then Some(before.value.(supersededBy := Some(e.act.supersededBy)))
      else before
  }

  lemma {:induction false} EntryIsLastWord(log: seq<Event>, r: Reader, keys: Keys, id: Text)
    ensures var s := Replay(log, r, keys);
            LastWord(log, r, keys, id) == if id in s.entries then Some(s.entries[id]) else None
  {
    if log != [] {
      EntryIsLastWord(log[..|log| - 1], r, keys, id);
    }
  }

  predicate Live(s: Store, id: Text) {
    id in s.entries && s.entries[id].supersededBy.None?
  }

  /** The i-th event is the last one that approves or supersedes the entry. */
  ghost predicate HasLastSay(log: seq<Event>, r: Reader, keys: Keys, id: Text, i: nat)
    requires i < |log|
  {
    && (Approves(log[i], r, keys, id) || Supersedes(log[i], r, keys, id))
    && forall j :: i < j < |log| ==> !Approves(log[j], r, keys, id) && !Supersedes(log[j], r, keys, id)
  }

  /** An entry is live exactly when the last decryptable approve-or-supersede event naming it is an approval. */
  lemma {:induction false} LiveExactly(log: seq<Event>, r: Reader, keys: Keys, id: Text)
    ensures Live(Replay(log, r, keys), id)
            <==> exists i :: 0 <= i < |log| && HasLastSay(log, r, keys, id, i) && Approves(log[i], r, keys, id)
  {
    if log != [] {
      hide Decryptable;
      var init, n, e := log[..|log| - 1], |log| - 1, log[|log| - 1];
      LiveExactly(init, r, keys, id);
      LiveStep(log, r, keys, id);
      if Approves(e, r, keys, id) || Supersedes(e, r, keys, id) {
        assert HasLastSay(log, r, keys, id, n);
      } else {
        forall i | 0 <= i < n ensures HasLastSay(log, r, keys, id, i) <==> HasLastSay(init, r, keys, id, i) {
          SaySurvives(log, r, keys, id, i);
        }
      }
    }
  }

  lemma SaySurvives(log: seq<Event>, r: Reader, keys: Keys, id: Text, i: nat)
    requires 0 <= i < |log| - 1
    requires !Approves(log[|log| - 1], r, keys, id) && !Supersedes(log[|log| - 1], r, keys, id)
    ensures HasLastSay(log, r, keys, id, i) <==> HasLastSay(log[..|log| - 1], r, keys, id, i)
  {
    hide Approves, Supersedes;
    var init := log[..|log| - 1];
    assert forall j :: 0 <= j < |init| ==> init[j] == log[j];
  }

  lemma LiveStep(log: seq<Event>, r: Reader, keys: Keys, id: Text)
    requires log != []
    ensures var e := log[|log| - 1];
            Live(Replay(log, r, keys), id)
            <==> Approves(e, r, keys, id) || (Live(Replay(log[..|log| - 1], r, keys), id) && !Supersedes(e, r, keys, id))
  {
    hide Decryptable;
    EntryIsLastWord(log, r, keys, id);
    EntryIsLastWord(log[..|log| - 1], r, keys, id);
  }

  /** The two events of `supersedeEntry`, for a reader with their key: the old entry is no longer live and
      names its replacement, the replacement is live, and every other entry is as before. */
  lemma SupersedeReplaces(log: seq<Event>, superseding: Event, approval: Event, r: Reader, keys: Keys)
    requires Decryptable(superseding, r, keys) && superseding.act.EntrySuperseded?
    requires Decryptable(approval, r, keys) && approval.act.EntryApproved?
    requires approval.act.entry.id == superseding.act.supersededBy && superseding.act.id != superseding.act.supersededBy
    ensures var s, t := Replay(log, r, keys), Replay(log + [superseding, approval], r, keys);
            && !Live(t, superseding.act.id)
            && (superseding.act.id in s.entries ==>
                  superseding.act.id in t.entries && t.entries[superseding.act.id] == Row(s.entries[superseding.act.id].entry, Some(approval.act.entry.id)))
            && Live(t, approval.act.entry.id) && t.entries[approval.act.entry.id].entry == approval.act.entry
            && forall id :: id != superseding.act.id && id != approval.act.entry.id ==>
                 (id in t.entries <==> id in s.entries) && (id in s.entries ==> t.entries[id] == s.entries[id])
  {
    var l := log + [superseding, approval];
    assert l[..|l| - 1] == log + [superseding] && (log + [superseding])[..|log|] == log;
  }

  // ----- search -----

  /** The join of `searchEntries`: matching index rows with the live entries of their ids, in index order. */
  function Found(s: Store, index: seq<IndexRow>, matches: (Text, Text) -> bool): seq<Row> {
    if index == [] then []
    else
      var row := index[|index| - 1];
      Found(s, index[..|index| - 1], matches) +
      (if matches(row.title, row.body) && Live(s, row.id) then [s.entries[row.id]] else [])
  }

  function SearchEntries(s: Store, matches: (Text, Text) -> bool): seq<Row> {
    Found(s, s.index, matches)
  }

  lemma {:induction false} FoundAre(s: Store, index: seq<IndexRow>, matches: (Text, Text) -> bool)
    requires DistinctIndex(index)
    requires forall id :: id in s.entries ==> s.entries[id].entry.id == id
    ensures forall id :: id in s.entries ==>
              (s.entries[id] in Found(s, index, matches)
               <==> Live(s, id) && exists row :: row in index && row.id == id && matches(row.title, row.body))
    ensures forall f :: f in Found(s, index, matches) ==> f.entry.id in s.entries && s.entries[f.entry.id] == f
    ensures forall i, j :: 0 <= i < j < |Found(s, index, matches)| ==> Found(s, index, matches)[i].entry.id != Found(s, index, matches)[j].entry.id
  {
    if index != [] {
      var init, last := index[..|index| - 1], index[|index| - 1];
      assert index == init + [last];
      FoundAre(s, init, matches);
      var before := Found(s, init, matches);
      forall i | 0 <= i < |before| && last.id in s.entries ensures before[i].entry.id != last.id {
        assert before[i] in before;
      }
    }
  }

  /** Search returns each matching live entry once and nothing else. */
  lemma SearchExactly(log: seq<Event>, r: Reader, keys: Keys, matches: (Text, Text) -> bool)
    ensures var s := Replay(log, r, keys); var found := SearchEntries(s, matches);
            && (forall f :: f in found <==> f.entry.id in s.entries && s.entries[f.entry.id] == f && Live(s, f.entry.id)
                                            && matches(f.entry.title, f.entry.body))
            && (forall i, j :: 0 <= i < j < |found| ==> found[i].entry.id != found[j].entry.id)
  {
    hide Replay;
    var s := Replay(log, r, keys);
    ReplayIndex(log, r, keys);
    FoundAre(s, s.index, matches);
    forall id | id in s.entries
      ensures (exists row :: row in s.index && row.id == id && matches(row.title, row.body))
              <==> matches(s.entries[id].entry.title, s.entries[id].entry.body)
    {
      RowOf(s, id);
    }
  }

  /** The index row of an entry is determined by its id. */
  lemma RowOf(s: Store, id: Text)
    requires IndexMatches(s.entries, s.index) && id in s.entries
    ensures forall row :: row in s.index && row.id == id ==> row == Indexed(s.entries[id].entry)
    ensures Indexed(s.entries[id].entry) in s.index && Indexed(s.entries[id].entry).id == id
  {
  }

  // ----- candidates -----

  /** The decryptable proposal that last named the candidate, and the transitions that named it since. */
  datatype History = History(eventId: Text, proposal: Proposal, acts: seq<Act>)

  function Since(log: seq<Event>, r: Reader, keys: Keys, id: Text): Option<History> {
    if log == [] then None
    else
      var e := log[|log| - 1];
      var before := Since(log[..|log| - 1], r, keys, id);
      if !Decryptable(e, r, keys) then before
      else if e.act.EntryProposed? && e.act.proposal.id == id then Some(History(e.id, e.act.proposal, []))
      else if Transitions(e.act) && e.act.id == id && before.Some? then Some(before.value.(acts := before.value.acts + [e.act]))
      else before
  }

  predicate Decides(act: Act) {
    act.CandidateApproved? || act.CandidateRejected? || act.CandidateTombstoned?
  }

  predicate Refused(s: Status) { s.Rejected? || s.Tombstoned? }

  /** The first approve, reject or tombstone. */
  function FirstDecision(acts: seq<Act>): Option<Act> {
    if acts == [] then None
    else if Decides(acts[0]) then Some(acts[0])
    else FirstDecision(acts[1..])
  }

  /** The status of the last reject or tombstone, or the one given if there is none. */
  function LastRefusal(acts: seq<Act>, s: Status): Status {
    if acts == [] then s
    else if acts[|acts| - 1].CandidateRejected? then Rejected
    else if acts[|acts| - 1].CandidateTombstoned? then Tombstoned
    else LastRefusal(acts[..|acts| - 1], s)
  }

  predicate EverAssigned(acts: seq<Act>) {
    exists i :: 0 <= i < |acts| && acts[i].CandidateAssigned?
  }

  /** The first decision settles approved or not; what is not approved has the last refusal's status;
      without any decision it is assigned if it ever was. */
  function ClosedStatus(start: Status, acts: seq<Act>): Status {
    if start.Approved? then Approved
    else if Refused(start) then LastRefusal(acts, start)
    else match FirstDecision(acts)
      case None => if EverAssigned(acts) then Assigned else start
      case Some(act) => if act.CandidateApproved? then Approved else LastRefusal(acts, start)
  }

  lemma {:induction false} FirstDecisionAppend(acts: seq<Act>, a: Act)
    ensures FirstDecision(acts + [a]) == if FirstDecision(acts).Some? then FirstDecision(acts) else if Decides(a) then Some(a) else None
    ensures FirstDecision(acts).Some? ==> Decides(FirstDecision(acts).value)
  {
    if acts != [] {
      FirstDecisionAppend(acts[1..], a);
      assert (acts + [a])[1..] == acts[1..] + [a];
    } else {
      assert [a][1..] == [];
    }
  }

  lemma {:induction false} RefusalAfterDecision(acts: seq<Act>, start: Status)
    ensures FirstDecision(acts).Some? && !FirstDecision(acts).value.CandidateApproved? ==> Refused(LastRefusal(acts, start))
    ensures Refused(start) ==> Refused(LastRefusal(acts, start))
  {
    if acts != [] {
      var init := acts[..|acts| - 1];
      RefusalAfterDecision(init, start);
      FirstDecisionAppend(init, acts[|acts| - 1]);
      assert acts == init + [acts[|acts| - 1]];
    }
  }

  lemma LastRefusalAppend(acts: seq<Act>, a: Act, start: Status)
    ensures LastRefusal(acts + [a], start)
            == if a.CandidateRejected? then Rejected else if a.CandidateTombstoned? then Tombstoned else LastRefusal(acts, start)
  {
    assert (acts + [a])[..|acts|] == acts;
  }

  lemma EverAssignedAppend(acts: seq<Act>, a: Act)
    ensures EverAssigned(acts + [a]) <==> EverAssigned(acts) || a.CandidateAssigned?
  {
    assert (acts + [a])[|acts|] == a;
    forall i | 0 <= i < |acts| ensures (acts + [a])[i] == acts[i] {
    }
    if EverAssigned(acts) {
      var i :| 0 <= i < |acts| && acts[i].CandidateAssigned?;
      assert (acts + [a])[i].CandidateAssigned?;
    }
  }

  /** One more transition moves the closed form as the update statement moves the row. */
  lemma ClosedStep(c: Candidate, start: Status, acts: seq<Act>, a: Act)
    requires Transitions(a) && c.status == ClosedStatus(start, acts)
    ensures Transition(c, a).status == ClosedStatus(start, acts + [a])
  {
    hide FirstDecision, LastRefusal, EverAssigned;
    FirstDecisionAppend(acts, a);
    LastRefusalAppend(acts, a, start);
    EverAssignedAppend(acts, a);
    RefusalAfterDecision(acts, start);
  }

  /** A candidate is there exactly if a decryptable proposal named it; it carries the last such
      proposal, and its status has the closed form over the transitions since. */
  lemma {:induction false} CandidateStatus(log: seq<Event>, r: Reader, keys: Keys, id: Text)
    ensures var s := Replay(log, r, keys); var h := Since(log, r, keys, id);
            && (id in s.candidates <==> h.Some?)
            && (h.Some? ==> && s.candidates[id].proposal == h.value.proposal
                            && s.candidates[id].proposalEventId == h.value.eventId
                            && s.candidates[id].status == ClosedStatus(h.value.proposal.status, h.value.acts))
  {
    hide ClosedStatus, Transition;
    if log != [] {
      var init, e := log[..|log| - 1], log[|log| - 1];
      CandidateStatus(init, r, keys, id);
      var s, h := Replay(init, r, keys), Since(init, r, keys, id);
      if Decryptable(e, r, keys) {
        if e.act.EntryProposed? && e.act.proposal.id == id {
          ClosedStart(e.act.proposal.status);
        } else if Transitions(e.act) && e.act.id == id && h.Some? {
          ClosedStep(s.candidates[id], h.value.proposal.status, h.value.acts, e.act);
          TransitionKeeps(s.candidates[id], e.act);
        }
      }
    }
  }

  lemma ClosedStart(start: Status)
    ensures ClosedStatus(start, []) == start
  {
  }

  lemma TransitionKeeps(c: Candidate, a: Act)
    ensures Transition(c, a).proposal == c.proposal && Transition(c, a).proposalEventId == c.proposalEventId
  {
  }

  // ----- who assigned and reviewed -----

  /** The transition finds a candidate that it may still change. */
  predicate Effective(before: Status, act: Act) {
    match act
    case CandidateAssigned(_, _) => before.Created? || before.Assigned?
    case CandidateApproved(_, _) => !Refused(before)
    case CandidateRejected(_, _, _) => !before.Approved?
    case CandidateTombstoned(_, _, _) => !before.Approved?
    case _ => false
  }

  datatype Credits = Credits(assignedTo: Option<Text>, reviewedBy: Option<Text>, reviewReason: Option<Text>)

  /** The last effective assignment, decision and refusal say to whom, by whom and why. */
  function CreditsOf(start: Status, acts: seq<Act>): Credits {
    if acts == [] then Credits(None, None, None)
    else
      var init, a := acts[..|acts| - 1], acts[|acts| - 1];
      var c := CreditsOf(start, init);
      if !Effective(ClosedStatus(start, init), a) then c
      else match a
        case CandidateAssigned(_, who) => c.(assignedTo := Some(who))
        case CandidateApproved(_, who) => c.(reviewedBy := Some(who))
        case CandidateRejected(_, who, why) => c.(reviewedBy := Some(who), reviewReason := Some(why))
        case CandidateTombstoned(_, who, why) => c.(reviewedBy := Some(who), reviewReason := Some(why))
        case _ => c
  }

  predicate Credited(c: Candidate, credits: Credits) {
    c.assignedTo == credits.assignedTo && c.reviewedBy == credits.reviewedBy && c.reviewReason == credits.reviewReason
  }

  lemma CreditsStep(c: Candidate, start: Status, acts: seq<Act>, a: Act)
    requires Transitions(a) && c.status == ClosedStatus(start, acts) && Credited(c, CreditsOf(start, acts))
    ensures Credited(Transition(c, a), CreditsOf(start, acts + [a]))
  {
    hide ClosedStatus;
    assert (acts + [a])[..|acts|] == acts;
  }

  /** A candidate names whom the last effective assignment since its proposal names, and the reviewer and the reason
      of the last effective decision and refusal. */
  lemma {:induction false} CandidateCredits(log: seq<Event>, r: Reader, keys: Keys, id: Text)
    requires id in Replay(log, r, keys).candidates
    ensures var h := Since(log, r, keys, id);
            h.Some? && Credited(Replay(log, r, keys).candidates[id], CreditsOf(h.value.proposal.status, h.value.acts))
  {
    hide ClosedStatus, Transition, CreditsOf;
    CandidateStatus(log, r, keys, id);
    var init, e := log[..|log| - 1], log[|log| - 1];
    CandidateStatus(init, r, keys, id);
    var s, h := Replay(init, r, keys), Since(init, r, keys, id);
    if id in s.candidates {
      CandidateCredits(init, r, keys, id);
    }
    if Decryptable(e, r, keys) {
      if e.act.EntryProposed? && e.act.proposal.id == id {
        NoCredits(e.act.proposal.status);
      } else if Transitions(e.act) && e.act.id == id && h.Some? {
        CreditsStep(s.candidates[id], h.value.proposal.status, h.value.acts, e.act);
      }
    }
  }

  lemma NoCredits(start: Status)
    ensures CreditsOf(start, []) == Credits(None, None, None)
  {
  }

  // ----- edges -----

  /** The event draws this edge: from an approved entry to what it applies to, or to the entry's replacement. */
  predicate Draws(e: Event, edge: Edge) {
    e.Written? && match e.act {
      case EntryApproved(entry, targets) => edge.from == entry.id && edge.relation == "applies_to" && edge.to in targets
      case EntrySuperseded(id, replacement) => edge == Edge(id, "superseded_by", replacement)
      case _ => false
    }
  }

  lemma ApplyEdges(s: Store, e: Event, edge: Edge)
    requires e.Written?
    ensures edge in Apply(s, e.act, e.id).edges <==> edge in s.edges || Draws(e, edge)
  {
    match e.act {
      case EntryApproved(entry, targets) =>
        var added := AppliesTo(entry.id, targets);
        assert forall i :: 0 <= i < |targets| ==> added[i] == Edge(entry.id, "applies_to", targets[i]);
        if edge.from == entry.id && edge.relation == "applies_to" && edge.to in targets {
          var i :| 0 <= i < |targets| && targets[i] == edge.to;
          assert added[i] == edge;
        }
      case _ =>
    }
  }

  /** The edges of the store are exactly those that its decryptable events draw. */
  lemma {:induction false} EdgesExactly(log: seq<Event>, r: Reader, keys: Keys, edge: Edge)
    ensures edge in Replay(log, r, keys).edges <==> exists e :: e in log && Decryptable(e, r, keys) && Draws(e, edge)
  {
    hide Apply, Draws;
    if log != [] {
      var init, e := log[..|log| - 1], log[|log| - 1];
      EdgesExactly(init, r, keys, edge);
      assert log == init + [e];
      if Decryptable(e, r, keys) {
        ApplyEdges(Replay(init, r, keys), e, edge);
      }
    }
  }
}
