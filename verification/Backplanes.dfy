/** The two implementations of the filter, over the replay memory that both keep. */
module Backplanes {
  import opened Basics
  import opened OrderedMap
  import opened JsStrings
  import opened BusSigning
  import opened BusReplaySpec

  /** The replay memory both backplanes keep, and the update they both make on acceptance. */
  class ReplayMemory {
    const cfg: Config
    var lastAcceptedIssuedAtMs: OMap<string, int>
    var lastAcceptedSignature: OMap<string, string>
    var seenSignedFrames: OMap<string, int>
    ghost var history: seq<Arrival>

    ghost predicate Valid()
      reads this
    {
      cfg.mac.Some? ==> State() == After(cfg, history)
    }

    ghost function State(): Filter
      reads this
    {
      Filter(lastAcceptedIssuedAtMs, lastAcceptedSignature, seenSignedFrames)
    }

    constructor (cfg: Config)
      ensures Valid() && this.cfg == cfg && history == []
    {
      this.cfg := cfg;
      lastAcceptedIssuedAtMs, lastAcceptedSignature, seenSignedFrames := Empty(), Empty(), Empty();
      history := [];
    }

    method Accept(s: Signed)
      requires Lockstep(State())
      modifies this`lastAcceptedIssuedAtMs, this`lastAcceptedSignature, this`seenSignedFrames
      ensures State() == Remember(cfg, old(State()), s)
    {
      var freshnessKey := FreshnessKey(s.fields);
      var seenFrameKey := SeenKey(s);
      lastAcceptedIssuedAtMs := Touch(lastAcceptedIssuedAtMs, freshnessKey, s.fields.issuedAtMs);
      lastAcceptedSignature := Touch(lastAcceptedSignature, freshnessKey, s.signature);
      seenSignedFrames := Touch(seenSignedFrames, seenFrameKey, s.fields.issuedAtMs);
      lastAcceptedIssuedAtMs, lastAcceptedSignature :=
        EvictPair(lastAcceptedIssuedAtMs, lastAcceptedSignature, cfg.freshnessTrackMax);
      seenSignedFrames := Evict(seenSignedFrames, SeenCap(cfg));
    }

    /** The whole decision on one item, in the order the checks are made. */
    method Offer(now: int, x: Item) returns (pass: bool)
      requires Valid()
      modifies this
      ensures Valid()
      ensures history == old(history) + if ToSigned(x).Some? then [Arrival(now, ToSigned(x).value)] else []
      ensures pass <==> cfg.mac.None? || PassesSigned(cfg, old(history), now, x)
    {
      if ToSigned(x).Some? {
        history := history + [Arrival(now, ToSigned(x).value)];
        if cfg.mac.Some? {
          AfterAppend(cfg, old(history), Arrival(now, ToSigned(x).value));
          LockstepAlways(cfg, old(history));
        }
      }
      if cfg.mac.None? {
        return true;
      }
      if x.issuedAtMs.None? || x.signature.None? {
        return false;
      }
      var s := ToSigned(x).value;
      if !WithinSkew(cfg, now, s.fields.issuedAtMs) {
        return false;
      }
      var seenAt := seenSignedFrames.Get(SeenKey(s));
      if seenAt.Some? && s.fields.issuedAtMs <= seenAt.value {
        return false;
      }
      var previous := lastAcceptedIssuedAtMs.Get(FreshnessKey(s.fields));
      if && previous.Some?
         && (|| s.fields.issuedAtMs < previous.value
             || (s.fields.issuedAtMs == previous.value
                 && lastAcceptedSignature.Get(FreshnessKey(s.fields)) == Some(s.signature))) {
        return false;
      }
      if IsBlank(s.signature) || cfg.mac.value(BusSignatureBase(s.fields)) != s.signature {
        return false;
      }
      Accept(s);
      return true;
    }
  }

  /** `while (issued.size > cap)`: drop the oldest key from both maps. */
  method EvictPair<V, W>(a: OMap<string, V>, b: OMap<string, W>, cap: nat) returns (x: OMap<string, V>, y: OMap<string, W>)
    requires a.order == b.order
    ensures x == EvictTo(a, cap) && y == EvictTo(b, cap)
  {
    x, y := a, b;
    while |x.order| > cap
      invariant x.order == y.order
      invariant EvictTo(x, cap) == EvictTo(a, cap) && EvictTo(y, cap) == EvictTo(b, cap)
      decreases |x.order|
    {
      var oldest := x.order[0];
      WithoutAt(y.order, 0);
      assert Delete(y, oldest) == DropOldest(y);
      x, y := DropOldest(x), Delete(y, oldest);
    }
  }

  datatype Delivered = Delivered(id: int, item: Item)

  function ItemsOf(d: seq<Delivered>): (items: seq<Item>)
    ensures |items| == |d| && forall i :: 0 <= i < |d| ==> items[i] == d[i].item
  {
    seq(|d|, i requires 0 <= i < |d| => d[i].item)
  }

  lemma NothingPulled(cfg: Config, before: seq<Arrival>, now: int, since: int)
    ensures before + Arrivals(now, []) == before && Passed(cfg, before, now, []) == [] && HighestId(since, []) == since
  {
  }

  lemma ItemsNone()
    ensures ItemsOf([]) == []
  {
  }

  lemma ItemsSum(d: seq<Delivered>, e: seq<Delivered>)
    ensures ItemsOf(d + e) == ItemsOf(d) + ItemsOf(e)
  {
  }

  /** The checks on a pulled frame with a valid id, before its signature. */
  method Vet(cfg: Config, c: PullFrame) returns (x: Option<Item>)
    requires c.id.Some? && c.id.value > 0
    ensures x == BusItem(cfg, c)
  {
    if c.sourceRelayId == Some(cfg.relayId) {
      return None;
    }
    if c.workspaceId.None? || c.runtimeTargetId.None? || IsBlank(c.runtimeTargetId.value)
       || c.sourceRelayId.None? || c.payload.None? {
      return None;
    }
    if c.targetRelayId.Some? && !IsBlank(c.targetRelayId.value) && c.targetRelayId.value != cfg.relayId {
      return None;
    }
    if c.payloadBytes > cfg.maxFrameBytes || c.direction.None? {
      return None;
    }
    return Some(Item(c.workspaceId.value, c.runtimeTargetId.value, c.machineId, c.sourceRelayId.value, c.targetRelayId,
                     c.direction.value, c.payload.value, c.issuedAtMs, c.signature));
  }

  class RelayBusClient {
    const memory: ReplayMemory
    var sinceId: int

    constructor (cfg: Config)
      ensures fresh(memory) && memory.Valid() && memory.cfg == cfg && memory.history == [] && sinceId == 0
    {
      memory := new ReplayMemory(cfg);
      sinceId := 0;
    }

    /** One turn of the loop: the cursor moves for every valid id, rejected frames included. */
    method PullOne(now: int, c: PullFrame) returns (taken: seq<Delivered>)
      requires memory.Valid()
      modifies this, memory
      ensures memory.Valid()
      ensures memory.history == old(memory.history) + ArrivalOf(now, BusItem(memory.cfg, c))
      ensures ItemsOf(taken) == Gate(memory.cfg, old(memory.history), now, BusItem(memory.cfg, c))
      ensures sinceId == HigherId(old(sinceId), c)
    {
      if c.id.None? || c.id.value <= 0 {
        return [];
      }
      if c.id.value > sinceId {
        sinceId := c.id.value;
      }
      var x := Vet(memory.cfg, c);
      if x.None? {
        return [];
      }
      var pass := memory.Offer(now, x.value);
      taken := if pass then [Delivered(c.id.value, x.value)] else [];
    }

    /** The loop over a successful pull response. */
    method Pull(now: int, framesRaw: seq<PullFrame>) returns (frames: seq<Delivered>)
      requires memory.Valid()
      modifies this, memory
      ensures memory.Valid()
      ensures memory.history == old(memory.history) + Arrivals(now, BusItems(memory.cfg, framesRaw))
      ensures ItemsOf(frames) == Passed(memory.cfg, old(memory.history), now, BusItems(memory.cfg, framesRaw))
      ensures sinceId == HighestId(old(sinceId), framesRaw)
    {
      hide Gate, BusItem, ArrivalOf, After, HigherId, ItemsOf, Arrivals, Passed, HighestId, memory.Valid;
      frames := [];
      ItemsNone();
      ghost var items := BusItems(memory.cfg, framesRaw);
      NothingPulled(memory.cfg, memory.history, now, sinceId);
      assert items[..0] == [] && framesRaw[..0] == [];
      for n := 0 to |framesRaw|
        invariant memory.Valid()
        invariant memory.history == old(memory.history) + Arrivals(now, items[..n])
        invariant ItemsOf(frames) == Passed(memory.cfg, old(memory.history), now, items[..n])
        invariant sinceId == HighestId(old(sinceId), framesRaw[..n])
      {
        HighestStep(old(sinceId), framesRaw, n);
        PullStep(memory.cfg, old(memory.history), now, items, n);
        Associative(old(memory.history), Arrivals(now, items[..n]), ArrivalOf(now, items[n]));
        var taken := PullOne(now, framesRaw[n]);
        ItemsSum(frames, taken);
        frames := frames + taken;
      }
      assert items[..|framesRaw|] == items && framesRaw[..|framesRaw|] == framesRaw;
    }
  }

  /** The checks on an entry of the list, before its signature. */
  method VetEnvelope(cfg: Config, raw: Option<Envelope>) returns (x: Option<Item>)
    ensures x == RedisItem(cfg, raw)
  {
    if raw.None? {
      return None;
    }
    var e := raw.value;
    if e.payloadBytes > cfg.maxFrameBytes {
      return None;
    }
    if e.targetRelayId.Some? && !IsBlank(e.targetRelayId.value) && e.targetRelayId.value != cfg.relayId {
      return None;
    }
    if e.direction.None? {
      return None;
    }
    return Some(Item(e.workspaceId, e.runtimeTargetId, e.machineId, e.sourceRelayId, e.targetRelayId, e.direction.value,
                     e.payload, e.issuedAtMs, e.signature));
  }

  class RedisRelayBackplane {
    const memory: ReplayMemory

    constructor (cfg: Config)
      ensures fresh(memory) && memory.Valid() && memory.cfg == cfg && memory.history == []
    {
      memory := new ReplayMemory(cfg);
    }

    /** One turn of the loop, for the entry that would be delivered under this id. */
    method PullOne(now: int, raw: Option<Envelope>, id: int) returns (taken: seq<Delivered>)
      requires memory.Valid()
      modifies memory
      ensures memory.Valid()
      ensures memory.history == old(memory.history) + ArrivalOf(now, RedisItem(memory.cfg, raw))
      ensures ItemsOf(taken) == Gate(memory.cfg, old(memory.history), now, RedisItem(memory.cfg, raw))
      ensures |taken| <= 1 && (|taken| == 1 ==> taken[0].id == id)
    {
      var x := VetEnvelope(memory.cfg, raw);
      if x.None? {
        return [];
      }
      var pass := memory.Offer(now, x.value);
      taken := if pass then [Delivered(id, x.value)] else [];
    }

    /** The loop over the entries read from the Redis list; an entry that does not parse is None. */
    method PullFrames(now: int, rawEntries: seq<Option<Envelope>>) returns (accepted: seq<Delivered>)
      requires memory.Valid()
      modifies memory
      ensures memory.Valid()
      ensures memory.history == old(memory.history) + Arrivals(now, RedisItems(memory.cfg, rawEntries))
      ensures ItemsOf(accepted) == Passed(memory.cfg, old(memory.history), now, RedisItems(memory.cfg, rawEntries))
      ensures forall i :: 0 <= i < |accepted| ==> accepted[i].id == now + i
    {
      hide Gate, RedisItem, ArrivalOf, After, ItemsOf, Arrivals, Passed, memory.Valid;
      accepted := [];
      ItemsNone();
      ghost var items := RedisItems(memory.cfg, rawEntries);
      NothingPulled(memory.cfg, memory.history, now, 0);
      assert items[..0] == [];
      for n := 0 to |rawEntries|
        invariant memory.Valid()
        invariant memory.history == old(memory.history) + Arrivals(now, items[..n])
        invariant ItemsOf(accepted) == Passed(memory.cfg, old(memory.history), now, items[..n])
        invariant forall i :: 0 <= i < |accepted| ==> accepted[i].id == now + i
      {
        PullStep(memory.cfg, old(memory.history), now, items, n);
        Associative(old(memory.history), Arrivals(now, items[..n]), ArrivalOf(now, items[n]));
        var taken := PullOne(now, rawEntries[n], now + |accepted|);
        ItemsSum(accepted, taken);
        accepted := accepted + taken;
      }
      assert items[..|rawEntries|] == items;
    }
  }
}
