/** Which frames from the bus are let through: every fresh one, and no other. */
module BusDelivery {
  import opened Basics
  import opened OrderedMap
  import opened JsStrings
  import opened BusSigning
  import opened BusReplaySpec

  /** After these arrivals a frame that arrives now is fresh: issued within the skew on either side, signed, not
      older than what was accepted for its origin, workspace and target, and newer than what was accepted with
      its signature too. */
  ghost predicate Fresh(cfg: Config, a: seq<Arrival>, now: int, s: Signed)
    requires cfg.mac.Some?
  {
    && s.fields.issuedAtMs - cfg.maxSkewMs <= now <= s.fields.issuedAtMs + cfg.maxSkewMs
    && !IsBlank(s.signature) && s.signature == cfg.mac.value(BusSignatureBase(s.fields))
    && forall j :: 0 <= j < |a| && AcceptedAt(cfg, a, j) ==> Older(a[j].frame, s)
  }

  predicate Older(x: Signed, s: Signed) {
    && (FreshnessKey(x.fields) == FreshnessKey(s.fields) ==> x.fields.issuedAtMs <= s.fields.issuedAtMs)
    && (SeenKey(x) == SeenKey(s) ==> x.fields.issuedAtMs < s.fields.issuedAtMs)
  }

  /** Among frames whose identifiers are on one line each, the freshness key stands for origin, workspace and
      target, and the replay key for these and the signature. */
  lemma KeysExactly(x: Signed, s: Signed)
    requires OnLines(x.fields) && OnLines(s.fields)
    ensures FreshnessKey(x.fields) == FreshnessKey(s.fields) <==>
            && x.fields.sourceRelayId == s.fields.sourceRelayId && x.fields.workspaceId == s.fields.workspaceId
            && OrEmpty(x.fields.runtimeTargetId) == OrEmpty(s.fields.runtimeTargetId)
    ensures SeenKey(x) == SeenKey(s) <==> FreshnessKey(x.fields) == FreshnessKey(s.fields) && x.signature == s.signature
  {
    hide Breaks;
    if SeenKey(x) == SeenKey(s) {
      SameKey(x.fields, s.fields, x.signature, s.signature);
    }
    if FreshnessKey(x.fields) == FreshnessKey(s.fields) {
      var f, g := x.fields, s.fields;
      var a, b := f.workspaceId + "\n" + OrEmpty(f.runtimeTargetId), g.workspaceId + "\n" + OrEmpty(g.runtimeTargetId);
      assert FreshnessKey(f) == f.sourceRelayId + "\n" + a && FreshnessKey(g) == g.sourceRelayId + "\n" + b;
      FirstPart(f.sourceRelayId, g.sourceRelayId, a, b);
      FirstPart(f.workspaceId, g.workspaceId, OrEmpty(f.runtimeTargetId), OrEmpty(g.runtimeTargetId));
    }
  }

  lemma SameKey(f: Fields, g: Fields, x: string, y: string)
    requires OnLines(f) && OnLines(g) && FreshnessKey(f) + "\n" + x == FreshnessKey(g) + "\n" + y
    ensures FreshnessKey(f) == FreshnessKey(g) && x == y
  {
    KeyBreaks(f);
    KeyBreaks(g);
    hide Breaks, FreshnessKey;
    FirstPart(FreshnessKey(f), FreshnessKey(g), x, y);
  }

  lemma KeyBreaks(f: Fields)
    requires OnLines(f)
    ensures Breaks(FreshnessKey(f)) == 2
  {
    BreaksSum(f.sourceRelayId + "\n" + f.workspaceId + "\n", OrEmpty(f.runtimeTargetId));
    BreaksSum(f.sourceRelayId + "\n" + f.workspaceId, "\n");
    BreaksSum(f.sourceRelayId + "\n", f.workspaceId);
    BreaksSum(f.sourceRelayId, "\n");
  }

  // ----- what the memory holds was accepted -----

  ghost predicate SeenFrom(cfg: Config, a: seq<Arrival>, k: string)
    requires cfg.mac.Some?
  {
    k in After(cfg, a).seen.data ==>
      exists j :: 0 <= j < |a| && AcceptedAt(cfg, a, j) && SeenKey(a[j].frame) == k && After(cfg, a).seen.data[k] == a[j].frame.fields.issuedAtMs
  }

  ghost predicate LastFrom(cfg: Config, a: seq<Arrival>, k: string)
    requires cfg.mac.Some?
  {
    k in After(cfg, a).issued.data ==>
      && k in After(cfg, a).signatures.data
      && exists j :: 0 <= j < |a| && AcceptedAt(cfg, a, j) && FreshnessKey(a[j].frame.fields) == k
                     && After(cfg, a).issued.data[k] == a[j].frame.fields.issuedAtMs
                     && After(cfg, a).signatures.data[k] == a[j].frame.signature
  }

  lemma EvictedData<V>(m: OMap<string, V>, k: string, v: V, cap: nat, x: string)
    requires x in EvictTo(Touch(m, k, v), cap).data
    ensures EvictTo(Touch(m, k, v), cap).data[x] == if x == k then v else if x in m.data then m.data[x] else v
    ensures x == k || x in m.data
  {
  }

  lemma PrefixAccepted(cfg: Config, a: seq<Arrival>, n: nat)
    requires cfg.mac.Some? && n <= |a|
    ensures forall j :: 0 <= j < n ==> (AcceptedAt(cfg, a[..n], j) <==> AcceptedAt(cfg, a, j))
  {
    forall j | 0 <= j < n ensures AcceptedAt(cfg, a[..n], j) <==> AcceptedAt(cfg, a, j) {
      assert a[..n][..j] == a[..j];
    }
  }

  lemma {:induction false} MemoryAccepted(cfg: Config, a: seq<Arrival>, k: string)
    requires cfg.mac.Some?
    ensures SeenFrom(cfg, a, k) && LastFrom(cfg, a, k)
  {
    if a != [] {
      var n := |a| - 1;
      MemoryAccepted(cfg, a[..n], k);
      PrefixAccepted(cfg, a, n);
      LockstepAlways(cfg, a);
      hide AcceptedAt, EvictTo, Touch, SeenCap, FreshnessKey, SeenKey, Judge;
      assert a[..|a|] == a;
      AfterStep(cfg, a, n);
      if AcceptedAt(cfg, a, n) {
        MemoryStep(cfg, a, n, k);
      } else {
        MemoryStays(cfg, a, n, k);
      }
    }
  }

  lemma MemoryStays(cfg: Config, a: seq<Arrival>, n: nat, k: string)
    requires cfg.mac.Some? && n + 1 == |a| && SeenFrom(cfg, a[..n], k) && LastFrom(cfg, a[..n], k)
    requires After(cfg, a) == After(cfg, a[..n])
    ensures SeenFrom(cfg, a, k) && LastFrom(cfg, a, k)
  {
    PrefixAccepted(cfg, a, n);
    hide AcceptedAt, After, FreshnessKey, SeenKey;
    var f := After(cfg, a);
    if k in f.seen.data {
      var j :| 0 <= j < n && AcceptedAt(cfg, a[..n], j) && SeenKey(a[..n][j].frame) == k && f.seen.data[k] == a[..n][j].frame.fields.issuedAtMs;
      assert AcceptedAt(cfg, a, j) && SeenKey(a[j].frame) == k;
    }
    if k in f.issued.data {
      var j :| 0 <= j < n && AcceptedAt(cfg, a[..n], j) && FreshnessKey(a[..n][j].frame.fields) == k
               && f.issued.data[k] == a[..n][j].frame.fields.issuedAtMs && f.signatures.data[k] == a[..n][j].frame.signature;
      assert AcceptedAt(cfg, a, j) && FreshnessKey(a[j].frame.fields) == k;
    }
  }

  lemma MemoryStep(cfg: Config, a: seq<Arrival>, n: nat, k: string)
    requires cfg.mac.Some? && n + 1 == |a| && SeenFrom(cfg, a[..n], k) && LastFrom(cfg, a[..n], k)
    requires AcceptedAt(cfg, a, n) && After(cfg, a) == Remember(cfg, After(cfg, a[..n]), a[n].frame)
    requires After(cfg, a).issued.data.Keys == After(cfg, a).signatures.data.Keys
    ensures SeenFrom(cfg, a, k) && LastFrom(cfg, a, k)
  {
    PrefixAccepted(cfg, a, n);
    hide AcceptedAt, After, EvictTo, Touch, SeenCap, FreshnessKey, SeenKey;
    var f, g, s := After(cfg, a[..n]), After(cfg, a), a[n].frame;
    if k in g.seen.data {
      EvictedData(f.seen, SeenKey(s), s.fields.issuedAtMs, SeenCap(cfg), k);
      if k == SeenKey(s) {
        assert AcceptedAt(cfg, a, n) && SeenKey(a[n].frame) == k;
      } else {
        var j :| 0 <= j < n && AcceptedAt(cfg, a[..n], j) && SeenKey(a[..n][j].frame) == k && f.seen.data[k] == a[..n][j].frame.fields.issuedAtMs;
        assert AcceptedAt(cfg, a, j) && SeenKey(a[j].frame) == k;
      }
    }
    if k in g.issued.data {
      assert k in g.signatures.data;
      EvictedData(f.issued, FreshnessKey(s.fields), s.fields.issuedAtMs, cfg.freshnessTrackMax, k);
      EvictedData(f.signatures, FreshnessKey(s.fields), s.signature, cfg.freshnessTrackMax, k);
      if k == FreshnessKey(s.fields) {
        assert AcceptedAt(cfg, a, n) && FreshnessKey(a[n].frame.fields) == k;
      } else {
        var j :| 0 <= j < n && AcceptedAt(cfg, a[..n], j) && FreshnessKey(a[..n][j].frame.fields) == k
                 && f.issued.data[k] == a[..n][j].frame.fields.issuedAtMs && f.signatures.data[k] == a[..n][j].frame.signature;
        assert AcceptedAt(cfg, a, j) && FreshnessKey(a[j].frame.fields) == k;
      }
    }
  }

  // ----- what is fresh is accepted -----

  lemma FreshPasses(cfg: Config, a: seq<Arrival>, now: int, s: Signed)
    requires cfg.mac.Some? && Fresh(cfg, a, now, s)
    ensures Judge(cfg, After(cfg, a), now, s)
  {
    hide AcceptedAt, After, BusSignatureBase, IsBlank, FreshnessKey;
    MemoryAccepted(cfg, a, SeenKey(s));
    MemoryAccepted(cfg, a, FreshnessKey(s.fields));
    var f := After(cfg, a);
    if SeenKey(s) in f.seen.data {
      var j :| 0 <= j < |a| && AcceptedAt(cfg, a, j) && SeenKey(a[j].frame) == SeenKey(s) && f.seen.data[SeenKey(s)] == a[j].frame.fields.issuedAtMs;
      assert Older(a[j].frame, s);
    }
    var k := FreshnessKey(s.fields);
    if k in f.issued.data {
      var j :| 0 <= j < |a| && AcceptedAt(cfg, a, j) && FreshnessKey(a[j].frame.fields) == k
               && f.issued.data[k] == a[j].frame.fields.issuedAtMs && f.signatures.data[k] == a[j].frame.signature;
      assert Older(a[j].frame, s);
    }
  }

  /** In every run, whatever the replay memory has forgotten, a fresh frame is accepted. */
  lemma FreshIsAccepted(cfg: Config, a: seq<Arrival>, i: nat)
    requires cfg.mac.Some? && i < |a| && Fresh(cfg, a[..i], a[i].now, a[i].frame)
    ensures AcceptedAt(cfg, a, i)
  {
    hide Fresh, Judge, After;
    FreshPasses(cfg, a[..i], a[i].now, a[i].frame);
  }

  /** The origins, workspaces and targets that frames come for. */
  function KeysIn(a: seq<Arrival>): set<string> {
    set j | 0 <= j < |a| :: FreshnessKey(a[j].frame.fields)
  }

  lemma {:induction false} NothingDropped(cfg: Config, a: seq<Arrival>, i: nat, n: nat)
    requires cfg.mac.Some? && i < n <= |a| && AcceptedAt(cfg, a, i) && |KeysIn(a)| <= cfg.freshnessTrackMax
    ensures FreshnessKey(a[i].frame.fields) in After(cfg, a[..n]).issued.data
    decreases n
  {
    hide AcceptedAt, After, Remember, FreshnessKey, KeysIn;
    AfterStep(cfg, a, n - 1);
    if n > i + 1 {
      NothingDropped(cfg, a, i, n - 1);
    }
    if AcceptedAt(cfg, a, n - 1) {
      KnownKeys(cfg, a, n - 1);
      RememberKeeps(cfg, After(cfg, a[..n - 1]), a[n - 1].frame, FreshnessKey(a[i].frame.fields), KeysIn(a));
    }
  }

  lemma RememberKeeps(cfg: Config, f: Filter, s: Signed, k: string, all: set<string>)
    requires f.issued.data.Keys <= all && FreshnessKey(s.fields) in all && |all| <= cfg.freshnessTrackMax
    requires k in f.issued.data || k == FreshnessKey(s.fields)
    ensures k in Remember(cfg, f, s).issued.data
  {
    hide FreshnessKey, EvictTo, Touch, SeenCap, SeenKey;
    TouchFits(f.issued, FreshnessKey(s.fields), s.fields.issuedAtMs, all, cfg.freshnessTrackMax);
  }

  lemma TouchFits(m: OMap<string, int>, k: string, v: int, all: set<string>, cap: nat)
    requires m.data.Keys <= all && k in all && |all| <= cap
    ensures EvictTo(Touch(m, k, v), cap) == Touch(m, k, v)
  {
    var t := Touch(m, k, v);
    DistinctCount(t.order);
    assert Elements(t.order) == t.data.Keys <= all;
    SubsetSize(t.data.Keys, all);
  }

  lemma KnownKeys(cfg: Config, a: seq<Arrival>, n: nat)
    requires cfg.mac.Some? && n < |a|
    ensures After(cfg, a[..n]).issued.data.Keys <= KeysIn(a) && FreshnessKey(a[n].frame.fields) in KeysIn(a)
  {
    hide AcceptedAt, After, FreshnessKey;
    forall k | k in After(cfg, a[..n]).issued.data ensures k in KeysIn(a) {
      MemoryAccepted(cfg, a[..n], k);
      var j :| 0 <= j < n && FreshnessKey(a[..n][j].frame.fields) == k;
      assert a[..n][j] == a[j];
    }
  }

  /** While the origins, workspaces and targets fit into the memory of the last accepted frames, and the frames
      of twice the skew into that of the seen ones, the frames accepted are exactly the fresh ones. */
  lemma AcceptedExactly(cfg: Config, a: seq<Arrival>, i: nat)
    requires cfg.mac.Some? && Monotone(a) && SpansFit(cfg, a) && |KeysIn(a)| <= cfg.freshnessTrackMax && i < |a|
    ensures AcceptedAt(cfg, a, i) <==> Fresh(cfg, a[..i], a[i].now, a[i].frame)
  {
    if AcceptedAt(cfg, a, i) {
      AcceptedIsSigned(cfg, a, i);
      AcceptedInTime(cfg, a, i);
      PrefixAccepted(cfg, a, i);
      hide AcceptedAt, SpansFit, FreshnessKey, SeenKey, BusSignatureBase, IsBlank;
      forall j | 0 <= j < i && AcceptedAt(cfg, a[..i], j) ensures Older(a[..i][j].frame, a[i].frame) {
        if FreshnessKey(a[j].frame.fields) == FreshnessKey(a[i].frame.fields) {
          forall m | j < m <= i ensures FreshnessKey(a[j].frame.fields) in After(cfg, a[..m]).issued.data {
            NothingDropped(cfg, a, j, m);
          }
          TrackedIssueTimesGrow(cfg, a, j, i);
        }
        if SeenKey(a[j].frame) == SeenKey(a[i].frame) {
          AcceptedAtMostOnce(cfg, a, j, i);
        }
      }
    } else {
      hide AcceptedAt, Fresh;
      if Fresh(cfg, a[..i], a[i].now, a[i].frame) {
        FreshIsAccepted(cfg, a, i);
      }
    }
  }

  lemma AcceptedInTime(cfg: Config, a: seq<Arrival>, i: nat)
    requires cfg.mac.Some? && i < |a| && AcceptedAt(cfg, a, i)
    ensures a[i].frame.fields.issuedAtMs - cfg.maxSkewMs <= a[i].now <= a[i].frame.fields.issuedAtMs + cfg.maxSkewMs
  {
    hide BusSignatureBase, IsBlank, Seen, Outdated;
  }

  // ----- pulls -----

  lemma {:induction false} PassedHas(cfg: Config, before: seq<Arrival>, now: int, items: seq<Option<Item>>, n: nat, x: Item)
    requires n < |items| && Gate(cfg, before + Arrivals(now, items[..n]), now, items[n]) == [x]
    ensures x in Passed(cfg, before, now, items)
  {
    hide Gate, Arrivals;
    var last := |items| - 1;
    if n < last {
      assert items[..last][..n] == items[..n];
      PassedHas(cfg, before, now, items[..last], n, x);
    }
  }

  lemma {:induction false} PassedFrom(cfg: Config, before: seq<Arrival>, now: int, items: seq<Option<Item>>, x: Item) returns (n: nat)
    requires x in Passed(cfg, before, now, items)
    ensures n < |items| && items[n] == Some(x) && Gate(cfg, before + Arrivals(now, items[..n]), now, items[n]) == [x]
  {
    hide Arrivals;
    var last := |items| - 1;
    if x in Passed(cfg, before, now, items[..last]) {
      n := PassedFrom(cfg, before, now, items[..last], x);
      assert items[..last][..n] == items[..n];
    } else {
      n := last;
    }
  }

  /** The item is let through: there is no key, or it is signed and fresh. */
  ghost predicate LetThrough(cfg: Config, a: seq<Arrival>, now: int, x: Item) {
    cfg.mac.None? || (x.issuedAtMs.Some? && x.signature.Some? && Fresh(cfg, a, now, SignedItem(x)))
  }

  function SignedItem(x: Item): Signed
    requires x.issuedAtMs.Some? && x.signature.Some?
  {
    Signed(Fields(x.workspaceId, Some(x.runtimeTargetId), x.machineId, x.sourceRelayId, x.targetRelayId, x.direction, x.payload,
                  x.issuedAtMs.value), x.signature.value)
  }

  lemma LetThroughPasses(cfg: Config, a: seq<Arrival>, now: int, x: Item)
    requires LetThrough(cfg, a, now, x)
    ensures Gate(cfg, a, now, Some(x)) == [x]
  {
    hide Fresh, Judge, After;
    if cfg.mac.Some? {
      FreshPasses(cfg, a, now, SignedItem(x));
    }
  }

  /** What a passed item shows about itself. */
  predicate Vouched(cfg: Config, now: int, x: Item) {
    cfg.mac.Some? ==>
      && x.issuedAtMs.Some? && x.issuedAtMs.value - cfg.maxSkewMs <= now <= x.issuedAtMs.value + cfg.maxSkewMs
      && x.signature.Some? && !IsBlank(x.signature.value)
      && x.signature.value == cfg.mac.value(BusSignatureBase(SignedItem(x).fields))
  }

  lemma PassedVouched(cfg: Config, a: seq<Arrival>, now: int, x: Item)
    requires Gate(cfg, a, now, Some(x)) == [x]
    ensures Vouched(cfg, now, x)
  {
    hide Seen, Outdated, After, BusSignatureBase, IsBlank;
  }

  /** A frame of the pull endpoint with a valid id, from another relay, for a named target, not for yet another
      relay, of a known direction and not too large. */
  predicate Addressed(cfg: Config, c: PullFrame) {
    && c.id.Some? && c.id.value >= 1
    && c.sourceRelayId.Some? && c.sourceRelayId.value != cfg.relayId
    && c.runtimeTargetId.Some? && Trim(c.runtimeTargetId.value) != ""
    && (c.targetRelayId.Some? && Trim(c.targetRelayId.value) != "" ==> c.targetRelayId.value == cfg.relayId)
    && c.direction.Some? && c.workspaceId.Some? && c.payload.Some? && c.payloadBytes <= cfg.maxFrameBytes
  }

  function ItemOf(c: PullFrame): Item
    requires c.workspaceId.Some? && c.runtimeTargetId.Some? && c.sourceRelayId.Some? && c.direction.Some? && c.payload.Some?
  {
    Item(c.workspaceId.value, c.runtimeTargetId.value, c.machineId, c.sourceRelayId.value, c.targetRelayId, c.direction.value,
         c.payload.value, c.issuedAtMs, c.signature)
  }

  /** A pull delivers every addressed frame that is let through when its turn comes, with its own fields. */
  lemma FreshIsPulled(cfg: Config, before: seq<Arrival>, now: int, raw: seq<PullFrame>, n: nat)
    requires n < |raw| && Addressed(cfg, raw[n])
    requires LetThrough(cfg, before + Arrivals(now, BusItems(cfg, raw)[..n]), now, ItemOf(raw[n]))
    ensures ItemOf(raw[n]) in Passed(cfg, before, now, BusItems(cfg, raw))
  {
    hide Gate, LetThrough, Trim, Arrivals, Passed;
    LetThroughPasses(cfg, before + Arrivals(now, BusItems(cfg, raw)[..n]), now, ItemOf(raw[n]));
    PassedHas(cfg, before, now, BusItems(cfg, raw), n, ItemOf(raw[n]));
  }

  /** All that a pull delivers is addressed and vouched for. */
  lemma PulledIsVouched(cfg: Config, before: seq<Arrival>, now: int, raw: seq<PullFrame>, x: Item) returns (n: nat)
    requires x in Passed(cfg, before, now, BusItems(cfg, raw))
    ensures n < |raw| && Addressed(cfg, raw[n]) && x == ItemOf(raw[n]) && Vouched(cfg, now, x)
  {
    hide Gate, Trim, Arrivals, Passed, Vouched;
    n := PassedFrom(cfg, before, now, BusItems(cfg, raw), x);
    PassedVouched(cfg, before + Arrivals(now, BusItems(cfg, raw)[..n]), now, x);
  }

  /** An entry of the Redis list that is an envelope, not for another relay, of a known direction and not too large. */
  predicate Listed(cfg: Config, raw: Option<Envelope>) {
    && raw.Some? && raw.value.direction.Some? && raw.value.payloadBytes <= cfg.maxFrameBytes
    && (raw.value.targetRelayId.Some? && Trim(raw.value.targetRelayId.value) != "" ==> raw.value.targetRelayId.value == cfg.relayId)
  }

  function EntryOf(e: Envelope): Item
    requires e.direction.Some?
  {
    Item(e.workspaceId, e.runtimeTargetId, e.machineId, e.sourceRelayId, e.targetRelayId, e.direction.value, e.payload, e.issuedAtMs, e.signature)
  }

  /** The same for the Redis list. */
  lemma FreshIsListed(cfg: Config, before: seq<Arrival>, now: int, raw: seq<Option<Envelope>>, n: nat)
    requires n < |raw| && Listed(cfg, raw[n])
    requires LetThrough(cfg, before + Arrivals(now, RedisItems(cfg, raw)[..n]), now, EntryOf(raw[n].value))
    ensures EntryOf(raw[n].value) in Passed(cfg, before, now, RedisItems(cfg, raw))
  {
    hide Gate, LetThrough, Trim, Arrivals, Passed;
    LetThroughPasses(cfg, before + Arrivals(now, RedisItems(cfg, raw)[..n]), now, EntryOf(raw[n].value));
    PassedHas(cfg, before, now, RedisItems(cfg, raw), n, EntryOf(raw[n].value));
  }

  lemma ListedIsVouched(cfg: Config, before: seq<Arrival>, now: int, raw: seq<Option<Envelope>>, x: Item) returns (n: nat)
    requires x in Passed(cfg, before, now, RedisItems(cfg, raw))
    ensures n < |raw| && Listed(cfg, raw[n]) && x == EntryOf(raw[n].value) && Vouched(cfg, now, x)
  {
    hide Gate, Trim, Arrivals, Passed, Vouched;
    n := PassedFrom(cfg, before, now, RedisItems(cfg, raw), x);
    PassedVouched(cfg, before + Arrivals(now, RedisItems(cfg, raw)[..n]), now, x);
  }
}
