/**
  The replay and freshness filter for signed frames from the bus. Two backplanes implement it over
  the same three insertion-ordered maps; `Judge` and `Remember` are the filter both must meet.
*/
module BusReplaySpec {
  import opened Basics
  import opened OrderedMap
  import opened JsStrings
  import opened BusSigning

  datatype Signed = Signed(fields: Fields, signature: string)

  datatype Config = Config(
    relayId: string, maxSkewMs: int, freshnessTrackMax: nat, maxFrameBytes: nat, mac: Option<string -> string>)

  function SeenCap(cfg: Config): (r: nat)
    ensures r >= 100000
  {
    if cfg.freshnessTrackMax * 4 > 100000 then cfg.freshnessTrackMax * 4 else 100000
  }

  datatype Filter = Filter(issued: OMap<string, int>, signatures: OMap<string, string>, seen: OMap<string, int>)

  const EMPTY: Filter := Filter(Empty(), Empty(), Empty())

  function FreshnessKey(f: Fields): string {
    f.sourceRelayId + "\n" + f.workspaceId + "\n" + OrEmpty(f.runtimeTargetId)
  }

  function SeenKey(s: Signed): string {
    FreshnessKey(s.fields) + "\n" + s.signature
  }

  predicate WithinSkew(cfg: Config, now: int, issuedAtMs: int) {
    -cfg.maxSkewMs <= now - issuedAtMs <= cfg.maxSkewMs
  }

  predicate Seen(f: Filter, s: Signed) {
    SeenKey(s) in f.seen.data && s.fields.issuedAtMs <= f.seen.data[SeenKey(s)]
  }

  predicate Outdated(f: Filter, s: Signed) {
    var k := FreshnessKey(s.fields);
    k in f.issued.data
    && (|| s.fields.issuedAtMs < f.issued.data[k]
        || (s.fields.issuedAtMs == f.issued.data[k] && f.signatures.Get(k) == Some(s.signature)))
  }

  /** Does the filter let a signed frame through at time now? */
  predicate Judge(cfg: Config, f: Filter, now: int, s: Signed)
    requires cfg.mac.Some?
  {
    && WithinSkew(cfg, now, s.fields.issuedAtMs)
    && !Seen(f, s)
    && !Outdated(f, s)
    && !IsBlank(s.signature)
    && cfg.mac.value(BusSignatureBase(s.fields)) == s.signature
  }

  /** The filter after it has let a frame through. */
  function Remember(cfg: Config, f: Filter, s: Signed): Filter {
    var k := FreshnessKey(s.fields);
    Filter(
      EvictTo(Touch(f.issued, k, s.fields.issuedAtMs), cfg.freshnessTrackMax),
      EvictTo(Touch(f.signatures, k, s.signature), cfg.freshnessTrackMax),
      EvictTo(Touch(f.seen, SeenKey(s), s.fields.issuedAtMs), SeenCap(cfg)))
  }

  // ----- runs -----

  datatype Arrival = Arrival(now: int, frame: Signed)

  ghost predicate Monotone(a: seq<Arrival>) {
    forall i, j :: 0 <= i <= j < |a| ==> a[i].now <= a[j].now
  }

  function After(cfg: Config, a: seq<Arrival>): Filter
    requires cfg.mac.Some?
  {
    if a == [] then EMPTY
    else
      var f := After(cfg, a[..|a| - 1]);
      var last := a[|a| - 1];
      if Judge(cfg, f, last.now, last.frame) then Remember(cfg, f, last.frame) else f
  }

  predicate AcceptedAt(cfg: Config, a: seq<Arrival>, i: nat)
    requires cfg.mac.Some? && i < |a|
  {
    Judge(cfg, After(cfg, a[..i]), a[i].now, a[i].frame)
  }

  lemma AfterStep(cfg: Config, a: seq<Arrival>, n: nat)
    requires cfg.mac.Some? && n < |a|
    ensures After(cfg, a[..n + 1]) ==
            if AcceptedAt(cfg, a, n) then Remember(cfg, After(cfg, a[..n]), a[n].frame) else After(cfg, a[..n])
  {
    assert a[..n + 1][..n] == a[..n];
  }

  /** The number of frames accepted among arrivals lo..hi. */
  function Accepted(cfg: Config, a: seq<Arrival>, lo: nat, hi: nat): nat
    requires cfg.mac.Some? && lo <= hi <= |a|
    decreases hi - lo
  {
    if lo == hi then 0 else Accepted(cfg, a, lo, hi - 1) + if AcceptedAt(cfg, a, hi - 1) then 1 else 0
  }

  /** No span of twice the allowed skew sees more frames accepted than the replay memory holds. */
  ghost predicate SpansFit(cfg: Config, a: seq<Arrival>)
    requires cfg.mac.Some?
  {
    forall i, hi {:trigger Accepted(cfg, a, i, hi)} ::
      0 <= i < hi <= |a| && a[hi - 1].now - a[i].now <= 2 * cfg.maxSkewMs ==>
      Accepted(cfg, a, i, hi) <= SeenCap(cfg)
  }

  // ----- at most once -----

  /** Among arrivals i..n the replay memory still knows the frame accepted as arrival i. */
  ghost predicate Remembered(cfg: Config, a: seq<Arrival>, i: nat, n: nat)
    requires cfg.mac.Some? && i < n <= |a|
  {
    var k := SeenKey(a[i].frame);
    var seen := After(cfg, a[..n]).seen;
    && k in seen.data
    && seen.data[k] >= a[i].frame.fields.issuedAtMs
    && |Younger(seen.order, k)| < Accepted(cfg, a, i, n)
  }

  lemma RememberSeen(cfg: Config, f: Filter, s: Signed, k: string)
    requires k == SeenKey(s) || (k in f.seen.data && |Younger(f.seen.order, k)| + 1 < SeenCap(cfg))
    ensures var seen := Remember(cfg, f, s).seen;
            && k in seen.data
            && seen.data[k] == (if k == SeenKey(s) then s.fields.issuedAtMs else f.seen.data[k])
            && |Younger(seen.order, k)| <= if k == SeenKey(s) then 0 else |Younger(f.seen.order, k)| + 1
  {
    var touched := Touch(f.seen, SeenKey(s), s.fields.issuedAtMs);
    if k == SeenKey(s) {
      YoungerAppend(Without(f.seen.order, k), k, k);
      assert Younger(touched.order, k) == {};
    } else {
      YoungerTouch(f.seen, SeenKey(s), s.fields.issuedAtMs, k);
    }
    EvictKeeps(touched, SeenCap(cfg), k);
  }

  lemma {:induction false} RememberedUntil(cfg: Config, a: seq<Arrival>, i: nat, n: nat)
    requires cfg.mac.Some? && Monotone(a) && SpansFit(cfg, a)
    requires i < n <= |a| && AcceptedAt(cfg, a, i)
    requires a[n - 1].now - a[i].now <= 2 * cfg.maxSkewMs
    ensures Remembered(cfg, a, i, n)
    decreases n
  {
    hide AcceptedAt, Remembered;
    if n == i + 1 {
      RememberedAtOnce(cfg, a, i);
    } else {
      assert a[n - 2].now <= a[n - 1].now;
      RememberedUntil(cfg, a, i, n - 1);
      assert Accepted(cfg, a, i, n) <= SeenCap(cfg);
      StaysRemembered(cfg, a, i, n - 1);
    }
  }

  lemma RememberedAtOnce(cfg: Config, a: seq<Arrival>, i: nat)
    requires cfg.mac.Some? && i < |a| && AcceptedAt(cfg, a, i)
    ensures Remembered(cfg, a, i, i + 1)
  {
    AfterStep(cfg, a, i);
    RememberSeen(cfg, After(cfg, a[..i]), a[i].frame, SeenKey(a[i].frame));
    assert Accepted(cfg, a, i, i + 1) == Accepted(cfg, a, i, i) + 1;
  }

  lemma StaysRemembered(cfg: Config, a: seq<Arrival>, i: nat, n: nat)
    requires cfg.mac.Some? && i < n < |a| && Remembered(cfg, a, i, n)
    requires Accepted(cfg, a, i, n + 1) <= SeenCap(cfg)
    ensures Remembered(cfg, a, i, n + 1)
  {
    AfterStep(cfg, a, n);
    if AcceptedAt(cfg, a, n) {
      RememberSeen(cfg, After(cfg, a[..n]), a[n].frame, SeenKey(a[i].frame));
    }
  }

  lemma RememberedIsRefused(cfg: Config, a: seq<Arrival>, i: nat, j: nat)
    requires cfg.mac.Some? && i < j < |a| && Remembered(cfg, a, i, j)
    requires SeenKey(a[i].frame) == SeenKey(a[j].frame)
    requires a[j].frame.fields.issuedAtMs <= a[i].frame.fields.issuedAtMs
    ensures !AcceptedAt(cfg, a, j)
  {
  }

  /** A frame is accepted at most once: of two accepted frames with the same origin, workspace,
      target and signature the later one was issued strictly later, so it is not the same frame. */
  lemma AcceptedAtMostOnce(cfg: Config, a: seq<Arrival>, i: nat, j: nat)
    requires cfg.mac.Some? && Monotone(a) && SpansFit(cfg, a)
    requires i < j < |a| && AcceptedAt(cfg, a, i) && AcceptedAt(cfg, a, j)
    requires SeenKey(a[i].frame) == SeenKey(a[j].frame)
    ensures a[i].frame.fields.issuedAtMs < a[j].frame.fields.issuedAtMs
    ensures a[i].frame != a[j].frame
  {
    if a[j].frame.fields.issuedAtMs <= a[i].frame.fields.issuedAtMs {
      assert a[j - 1].now <= a[j].now;
      RememberedUntil(cfg, a, i, j);
      RememberedIsRefused(cfg, a, i, j);
    }
  }

  // ----- signatures -----

  /** Different texts have different authentication codes. */
  ghost predicate Injective(mac: string -> string) {
    forall s, t :: mac(s) == mac(t) ==> s == t
  }

  lemma SameSignatureSameText(cfg: Config, a: seq<Arrival>, i: nat, j: nat)
    requires cfg.mac.Some? && Injective(cfg.mac.value) && i < |a| && j < |a|
    requires AcceptedAt(cfg, a, i) && AcceptedAt(cfg, a, j) && a[i].frame.signature == a[j].frame.signature
    ensures BusSignatureBase(a[i].frame.fields) == BusSignatureBase(a[j].frame.fields)
  {
    hide BusSignatureBase;
  }

  /** Among frames with as many line breaks in each identifier - none, say - a signature is accepted
      once in the whole run. */
  lemma SignatureAcceptedOnce(cfg: Config, a: seq<Arrival>, i: nat, j: nat)
    requires cfg.mac.Some? && Injective(cfg.mac.value) && Monotone(a) && SpansFit(cfg, a)
    requires i < j < |a| && AcceptedAt(cfg, a, i) && AcceptedAt(cfg, a, j)
    requires SameBreaks(a[i].frame.fields, a[j].frame.fields)
    ensures a[i].frame.signature != a[j].frame.signature
  {
    hide AcceptedAt, SpansFit, BusSignatureBase, SameBreaks;
    if a[i].frame.signature == a[j].frame.signature {
      SameSignatureSameText(cfg, a, i, j);
      BaseExactly(a[i].frame.fields, a[j].frame.fields);
      AcceptedAtMostOnce(cfg, a, i, j);
    }
  }

  /** In no run over these frames is a signature accepted twice. */
  ghost predicate AcceptedSingly(cfg: Config, frames: Fields -> bool)
    requires cfg.mac.Some?
  {
    forall a: seq<Arrival>, i, j ::
      && Monotone(a) && SpansFit(cfg, a) && (forall k :: 0 <= k < |a| ==> frames(a[k].frame.fields))
      && 0 <= i < j < |a| && AcceptedAt(cfg, a, i) && AcceptedAt(cfg, a, j)
      ==> a[i].frame.signature != a[j].frame.signature
  }

  /** Of these frames, those with one signed text have one freshness key and one issue time. */
  ghost predicate TextDecides(cfg: Config, frames: Fields -> bool)
    requires cfg.mac.Some?
  {
    forall f, g :: frames(f) && frames(g) && BusSignatureBase(f) == BusSignatureBase(g) && !IsBlank(cfg.mac.value(BusSignatureBase(f)))
                   ==> FreshnessKey(f) == FreshnessKey(g) && f.issuedAtMs == g.issuedAtMs
  }

  function TwoFrames(cfg: Config, f: Fields, g: Fields): seq<Arrival>
    requires cfg.mac.Some?
  {
    var signature := cfg.mac.value(BusSignatureBase(f));
    [Arrival(f.issuedAtMs, Signed(f, signature)), Arrival(g.issuedAtMs, Signed(g, signature))]
  }

  lemma {:induction false} AcceptedBound(cfg: Config, a: seq<Arrival>, lo: nat, hi: nat)
    requires cfg.mac.Some? && lo <= hi <= |a|
    ensures Accepted(cfg, a, lo, hi) <= hi - lo
    decreases hi
  {
    hide AcceptedAt;
    if lo < hi {
      AcceptedBound(cfg, a, lo, hi - 1);
    }
  }

  lemma SuffixCancels(a: string, b: string, s: string)
    requires a + s == b + s
    ensures a == b
  {
    assert |a| == |b|;
    assert a == (a + s)[..|a|] && b == (b + s)[..|b|];
  }

  lemma TwoFit(cfg: Config, a: seq<Arrival>)
    requires cfg.mac.Some? && |a| <= 2
    ensures SpansFit(cfg, a)
  {
    hide AcceptedAt;
    forall i, hi | 0 <= i < hi <= |a| ensures Accepted(cfg, a, i, hi) <= SeenCap(cfg) {
      AcceptedBound(cfg, a, i, hi);
    }
  }

  /** What remembering one frame does not hold against another. */
  lemma NotConnected(cfg: Config, s: Signed, t: Signed)
    requires s.signature == t.signature
    requires FreshnessKey(s.fields) != FreshnessKey(t.fields) || s.fields.issuedAtMs < t.fields.issuedAtMs
    ensures !Seen(Remember(cfg, EMPTY, s), t) && !Outdated(Remember(cfg, EMPTY, s), t)
  {
    hide FreshnessKey, EvictTo, Touch, SeenCap;
    if SeenKey(s) == SeenKey(t) {
      var tail := "\n" + s.signature;
      assert SeenKey(s) == FreshnessKey(s.fields) + tail && SeenKey(t) == FreshnessKey(t.fields) + tail;
      SuffixCancels(FreshnessKey(s.fields), FreshnessKey(t.fields), tail);
    }
  }

  /** Frames with one signed text are both accepted, one after the other, if their freshness keys differ
      or the second was issued later: the replay memory does not connect them. */
  lemma BothAccepted(cfg: Config, f: Fields, g: Fields)
    requires cfg.mac.Some? && cfg.maxSkewMs >= 0
    requires BusSignatureBase(f) == BusSignatureBase(g) && !IsBlank(cfg.mac.value(BusSignatureBase(f)))
    requires f.issuedAtMs <= g.issuedAtMs
    requires FreshnessKey(f) != FreshnessKey(g) || f.issuedAtMs < g.issuedAtMs
    ensures var a := TwoFrames(cfg, f, g); Monotone(a) && SpansFit(cfg, a) && AcceptedAt(cfg, a, 0) && AcceptedAt(cfg, a, 1)
  {
    hide BusSignatureBase, FreshnessKey, Remember, Seen, Outdated, IsBlank, SpansFit;
    var a := TwoFrames(cfg, f, g);
    TwoFit(cfg, a);
    assert a[..0] == [] && a[..1] == [a[0]] && a[..1][..0] == [];
    NothingSeen(a[0].frame);
    assert Judge(cfg, EMPTY, a[0].now, a[0].frame);
    assert After(cfg, a[..1]) == Remember(cfg, EMPTY, a[0].frame);
    NotConnected(cfg, a[0].frame, a[1].frame);
  }

  lemma NothingSeen(s: Signed)
    ensures !Seen(EMPTY, s) && !Outdated(EMPTY, s)
  {
  }

  /** Over a set of frames, no signature is accepted twice in any run exactly when the signed text of a
      frame decides its freshness key and issue time. */
  lemma AcceptedSinglyExactly(cfg: Config, frames: Fields -> bool)
    requires cfg.mac.Some? && Injective(cfg.mac.value) && cfg.maxSkewMs >= 0
    ensures AcceptedSingly(cfg, frames) <==> TextDecides(cfg, frames)
  {
    hide BusSignatureBase, FreshnessKey, AcceptedAt, SpansFit, IsBlank;
    if AcceptedSingly(cfg, frames) {
      forall f, g | frames(f) && frames(g) && BusSignatureBase(f) == BusSignatureBase(g) && !IsBlank(cfg.mac.value(BusSignatureBase(f)))
        ensures FreshnessKey(f) == FreshnessKey(g) && f.issuedAtMs == g.issuedAtMs
      {
        if !(FreshnessKey(f) == FreshnessKey(g) && f.issuedAtMs == g.issuedAtMs) {
          TwiceAccepted(cfg, frames, f, g);
        }
      }
    }
    if TextDecides(cfg, frames) {
      forall a: seq<Arrival>, i, j |
        && Monotone(a) && SpansFit(cfg, a) && (forall k :: 0 <= k < |a| ==> frames(a[k].frame.fields))
        && 0 <= i < j < |a| && AcceptedAt(cfg, a, i) && AcceptedAt(cfg, a, j)
        ensures a[i].frame.signature != a[j].frame.signature
      {
        if a[i].frame.signature == a[j].frame.signature {
          SameSignatureSameText(cfg, a, i, j);
          AcceptedIsSigned(cfg, a, i);
          AcceptedAtMostOnce(cfg, a, i, j);
        }
      }
    }
  }

  lemma AcceptedIsSigned(cfg: Config, a: seq<Arrival>, i: nat)
    requires cfg.mac.Some? && i < |a| && AcceptedAt(cfg, a, i)
    ensures a[i].frame.signature == cfg.mac.value(BusSignatureBase(a[i].frame.fields)) && !IsBlank(a[i].frame.signature)
  {
    hide BusSignatureBase, IsBlank;
  }

  lemma TwiceAccepted(cfg: Config, frames: Fields -> bool, f: Fields, g: Fields)
    requires cfg.mac.Some? && cfg.maxSkewMs >= 0 && frames(f) && frames(g)
    requires BusSignatureBase(f) == BusSignatureBase(g) && !IsBlank(cfg.mac.value(BusSignatureBase(f)))
    requires FreshnessKey(f) != FreshnessKey(g) || f.issuedAtMs != g.issuedAtMs
    ensures !AcceptedSingly(cfg, frames)
  {
    hide BusSignatureBase, FreshnessKey, AcceptedAt, SpansFit, IsBlank, Monotone;
    var a := if f.issuedAtMs <= g.issuedAtMs then TwoFrames(cfg, f, g) else TwoFrames(cfg, g, f);
    if f.issuedAtMs <= g.issuedAtMs {
      BothAccepted(cfg, f, g);
    } else {
      BothAccepted(cfg, g, f);
    }
    assert forall k :: 0 <= k < |a| ==> frames(a[k].frame.fields);
    assert AcceptedAt(cfg, a, 0) && AcceptedAt(cfg, a, 1) && a[0].frame.signature == a[1].frame.signature;
  }

  /** Frames whose identifiers are on one line each meet the condition. */
  lemma OneLineTextDecides(cfg: Config)
    requires cfg.mac.Some?
    ensures TextDecides(cfg, OnLines)
  {
    hide BusSignatureBase, IsBlank;
    forall f, g | OnLines(f) && OnLines(g) && BusSignatureBase(f) == BusSignatureBase(g)
      ensures FreshnessKey(f) == FreshnessKey(g) && f.issuedAtMs == g.issuedAtMs
    {
      BaseExactly(f, g);
    }
  }

  /** A line break that moves from the machine id to the relay id: one signature, accepted twice. */
  lemma MovedBreakAcceptedTwice(cfg: Config)
    requires cfg.mac.Some? && cfg.maxSkewMs >= 0
    ensures var f := Fields("w", Some("t"), Some("x\ny"), "z", None, ClientToDaemon, "", 0);
            var g := Fields("w", Some("t"), Some("x"), "y\nz", None, ClientToDaemon, "", 0);
            var a := TwoFrames(cfg, f, g);
            !IsBlank(cfg.mac.value(BusSignatureBase(f))) ==>
              && Monotone(a) && SpansFit(cfg, a) && AcceptedAt(cfg, a, 0) && AcceptedAt(cfg, a, 1)
              && a[0].frame.signature == a[1].frame.signature
  {
    hide BusSignatureBase, AcceptedAt, SpansFit, IsBlank;
    var f := Fields("w", Some("t"), Some("x\ny"), "z", None, ClientToDaemon, "", 0);
    var g := Fields("w", Some("t"), Some("x"), "y\nz", None, ClientToDaemon, "", 0);
    assert "x\ny" == "x" + "\n" + "y" && "y\nz" == "y" + "\n" + "z";
    MovedBreak(f, g, "x", "y", "z");
    assert FreshnessKey(f)[0] == 'z' && FreshnessKey(g)[0] == 'y';
    if !IsBlank(cfg.mac.value(BusSignatureBase(f))) {
      BothAccepted(cfg, f, g);
    }
  }

  // ----- freshness -----

  /** The two last-accepted maps hold the same keys in the same order. */
  ghost predicate Lockstep(f: Filter) {
    f.issued.order == f.signatures.order
  }

  predicate WithinCaps(cfg: Config, f: Filter) {
    |f.issued.order| <= cfg.freshnessTrackMax && |f.seen.order| <= SeenCap(cfg)
  }

  lemma RememberLockstep(cfg: Config, f: Filter, s: Signed)
    requires Lockstep(f)
    ensures Lockstep(Remember(cfg, f, s)) && WithinCaps(cfg, Remember(cfg, f, s))
  {
    var k := FreshnessKey(s.fields);
    OrderIgnoresValues(Touch(f.issued, k, s.fields.issuedAtMs), Touch(f.signatures, k, s.signature), cfg.freshnessTrackMax);
    EvictOrder(Touch(f.seen, SeenKey(s), s.fields.issuedAtMs), SeenCap(cfg));
  }

  lemma {:induction false} LockstepAlways(cfg: Config, a: seq<Arrival>)
    requires cfg.mac.Some?
    ensures Lockstep(After(cfg, a)) && WithinCaps(cfg, After(cfg, a))
    ensures After(cfg, a).issued.data.Keys == After(cfg, a).signatures.data.Keys
  {
    if a != [] {
      LockstepAlways(cfg, a[..|a| - 1]);
      RememberLockstep(cfg, After(cfg, a[..|a| - 1]), a[|a| - 1].frame);
    }
    var f := After(cfg, a);
    assert f.issued.data.Keys == Elements(f.issued.order) == f.signatures.data.Keys;
  }

  /** While a freshness key stays tracked, the issue times accepted for it never decrease. */
  lemma {:induction false} TrackedIssueTimesGrow(cfg: Config, a: seq<Arrival>, i: nat, n: nat)
    requires cfg.mac.Some? && i < n <= |a| && AcceptedAt(cfg, a, i)
    requires forall m :: i < m <= n ==> FreshnessKey(a[i].frame.fields) in After(cfg, a[..m]).issued.data
    ensures After(cfg, a[..n]).issued.data[FreshnessKey(a[i].frame.fields)] >= a[i].frame.fields.issuedAtMs
    ensures n < |a| && AcceptedAt(cfg, a, n) && FreshnessKey(a[n].frame.fields) == FreshnessKey(a[i].frame.fields) ==>
              a[n].frame.fields.issuedAtMs >= a[i].frame.fields.issuedAtMs
    decreases n
  {
    AfterStep(cfg, a, n - 1);
    if n > i + 1 {
      TrackedIssueTimesGrow(cfg, a, i, n - 1);
    }
  }

  // ----- one pull -----

  /** A pulled frame that is well formed and addressed to this relay. */
  datatype Item = Item(
    workspaceId: string, runtimeTargetId: string, machineId: Option<string>, sourceRelayId: string,
    targetRelayId: Option<string>, direction: Direction, payload: string,
    issuedAtMs: Option<int>, signature: Option<string>)

  function ToSigned(x: Item): Option<Signed> {
    if x.issuedAtMs.None? || x.signature.None? then None
    else Some(Signed(
      Fields(x.workspaceId, Some(x.runtimeTargetId), x.machineId, x.sourceRelayId, x.targetRelayId, x.direction, x.payload, x.issuedAtMs.value),
      x.signature.value))
  }

  /** The signed frames that one pull puts before the filter. */
  function Arrivals(now: int, items: seq<Option<Item>>): seq<Arrival> {
    if items == [] then []
    else
      var x := items[|items| - 1];
      Arrivals(now, items[..|items| - 1]) + ArrivalOf(now, x)
  }

  function ArrivalOf(now: int, item: Option<Item>): seq<Arrival> {
    if item.Some? && ToSigned(item.value).Some? then [Arrival(now, ToSigned(item.value).value)] else []
  }

  /** The items that one pull returns, given the arrivals before it. Without a key nothing is filtered. */
  function Passed(cfg: Config, before: seq<Arrival>, now: int, items: seq<Option<Item>>): seq<Item> {
    if items == [] then []
    else
      var prefix := items[..|items| - 1];
      Passed(cfg, before, now, prefix) + Gate(cfg, before + Arrivals(now, prefix), now, items[|items| - 1])
  }

  /** One item, or nothing. */
  function Gate(cfg: Config, before: seq<Arrival>, now: int, item: Option<Item>): seq<Item> {
    if item.Some? && (cfg.mac.None? || PassesSigned(cfg, before, now, item.value)) then [item.value] else []
  }

  predicate PassesSigned(cfg: Config, before: seq<Arrival>, now: int, x: Item)
    requires cfg.mac.Some?
  {
    ToSigned(x).Some? && Judge(cfg, After(cfg, before), now, ToSigned(x).value)
  }

  lemma PullStep(cfg: Config, before: seq<Arrival>, now: int, items: seq<Option<Item>>, n: nat)
    requires n < |items|
    ensures Arrivals(now, items[..n + 1]) == Arrivals(now, items[..n])
              + ArrivalOf(now, items[n])
    ensures Passed(cfg, before, now, items[..n + 1]) == Passed(cfg, before, now, items[..n])
              + Gate(cfg, before + Arrivals(now, items[..n]), now, items[n])
  {
    assert items[..n + 1][..n] == items[..n];
  }

  lemma AfterAppend(cfg: Config, a: seq<Arrival>, x: Arrival)
    requires cfg.mac.Some?
    ensures After(cfg, a + [x]) ==
            if Judge(cfg, After(cfg, a), x.now, x.frame) then Remember(cfg, After(cfg, a), x.frame) else After(cfg, a)
  {
    assert (a + [x])[..|a|] == a;
  }

  /** The frames accepted in a run, in order. */
  function AcceptedFrames(cfg: Config, a: seq<Arrival>): seq<Signed>
    requires cfg.mac.Some?
  {
    if a == [] then []
    else
      AcceptedFrames(cfg, a[..|a| - 1])
      + if Judge(cfg, After(cfg, a[..|a| - 1]), a[|a| - 1].now, a[|a| - 1].frame) then [a[|a| - 1].frame] else []
  }

  function SignedItems(items: seq<Item>): seq<Signed> {
    if items == [] then []
    else
      var last := ToSigned(items[|items| - 1]);
      SignedItems(items[..|items| - 1]) + if last.Some? then [last.value] else []
  }

  lemma AcceptedFramesAppend(cfg: Config, a: seq<Arrival>, x: Arrival)
    requires cfg.mac.Some?
    ensures AcceptedFrames(cfg, a + [x]) == AcceptedFrames(cfg, a) + if Judge(cfg, After(cfg, a), x.now, x.frame) then [x.frame] else []
  {
    assert (a + [x])[..|a|] == a;
  }

  lemma SignedItemsAppend(p: seq<Item>, x: Item)
    requires ToSigned(x).Some?
    ensures SignedItems(p + [x]) == SignedItems(p) + [ToSigned(x).value]
  {
    assert (p + [x])[..|p|] == p;
  }

  /** What a pull returns is what the filter accepted of it, no more and no less. */
  lemma {:induction false} PulledAreAccepted(cfg: Config, before: seq<Arrival>, now: int, items: seq<Option<Item>>)
    requires cfg.mac.Some?
    ensures AcceptedFrames(cfg, before + Arrivals(now, items))
            == AcceptedFrames(cfg, before) + SignedItems(Passed(cfg, before, now, items))
  {
    hide ArrivalOf, Gate, AcceptedFrames;
    if items == [] {
      assert before + [] == before;
    } else {
      var n := |items| - 1;
      PulledAreAccepted(cfg, before, now, items[..n]);
      OneMorePulled(cfg, before, before + Arrivals(now, items[..n]), now, Passed(cfg, before, now, items[..n]), items[n]);
      Associative(before, Arrivals(now, items[..n]), ArrivalOf(now, items[n]));
    }
  }

  lemma Associative<T>(a: seq<T>, b: seq<T>, c: seq<T>)
    ensures a + b + c == a + (b + c)
  {
  }

  lemma OneMorePulled(cfg: Config, before: seq<Arrival>, a: seq<Arrival>, now: int, p: seq<Item>, item: Option<Item>)
    requires cfg.mac.Some?
    requires AcceptedFrames(cfg, a) == AcceptedFrames(cfg, before) + SignedItems(p)
    ensures AcceptedFrames(cfg, a + ArrivalOf(now, item)) == AcceptedFrames(cfg, before) + SignedItems(p + Gate(cfg, a, now, item))
  {
    hide AcceptedFrames, SignedItems, Judge, After;
    assert a + [] == a && p + [] == p;
    if item.Some? && ToSigned(item.value).Some? {
      AcceptedFramesAppend(cfg, a, Arrival(now, ToSigned(item.value).value));
      SignedItemsAppend(p, item.value);
    }
  }

  lemma {:induction false} AcceptedFrameArrived(cfg: Config, a: seq<Arrival>, s: Signed) returns (i: nat)
    requires cfg.mac.Some? && s in AcceptedFrames(cfg, a)
    ensures i < |a| && a[i].frame == s && AcceptedAt(cfg, a, i)
  {
    var n := |a| - 1;
    if s in AcceptedFrames(cfg, a[..n]) {
      i := AcceptedFrameArrived(cfg, a[..n], s);
      assert a[..n][..i] == a[..i];
    } else {
      i := n;
    }
  }

  /** No frame is delivered twice, over any sequence of pulls. */
  lemma {:induction false} NoFrameTwice(cfg: Config, a: seq<Arrival>)
    requires cfg.mac.Some? && Monotone(a) && SpansFit(cfg, a)
    ensures Distinct(AcceptedFrames(cfg, a))
  {
    if a != [] {
      var n := |a| - 1;
      PrefixFits(cfg, a, n);
      NoFrameTwice(cfg, a[..n]);
      if AcceptedAt(cfg, a, n) && a[n].frame in AcceptedFrames(cfg, a[..n]) {
        var i := AcceptedFrameArrived(cfg, a[..n], a[n].frame);
        assert a[..n][..i] == a[..i];
        AcceptedAtMostOnce(cfg, a, i, n);
      }
    }
  }

  lemma PrefixFits(cfg: Config, a: seq<Arrival>, n: nat)
    requires cfg.mac.Some? && Monotone(a) && SpansFit(cfg, a) && n <= |a|
    ensures Monotone(a[..n]) && SpansFit(cfg, a[..n])
  {
    forall i, hi | 0 <= i < hi <= n && a[hi - 1].now - a[i].now <= 2 * cfg.maxSkewMs
      ensures Accepted(cfg, a[..n], i, hi) <= SeenCap(cfg)
    {
      AcceptedPrefix(cfg, a, n, i, hi);
    }
  }

  lemma {:induction false} AcceptedPrefix(cfg: Config, a: seq<Arrival>, n: nat, lo: nat, hi: nat)
    requires cfg.mac.Some? && lo <= hi <= n <= |a|
    ensures Accepted(cfg, a[..n], lo, hi) == Accepted(cfg, a, lo, hi)
    decreases hi
  {
    if lo < hi {
      AcceptedPrefix(cfg, a, n, lo, hi - 1);
      assert a[..n][..hi - 1] == a[..hi - 1];
    }
  }

  // ----- the two ways in -----

  /** A frame as the server's pull endpoint returns it; None where the JSON value has another type. */
  datatype PullFrame = PullFrame(
    id: Option<int>, workspaceId: Option<string>, runtimeTargetId: Option<string>, machineId: Option<string>,
    sourceRelayId: Option<string>, targetRelayId: Option<string>, direction: Option<Direction>,
    payload: Option<string>, payloadBytes: nat, issuedAtMs: Option<int>, signature: Option<string>)

  function BusItem(cfg: Config, c: PullFrame): Option<Item> {
    if && c.id.Some? && c.id.value > 0
       && c.sourceRelayId.Some? && c.sourceRelayId.value != cfg.relayId
       && c.workspaceId.Some? && c.runtimeTargetId.Some? && !IsBlank(c.runtimeTargetId.value) && c.payload.Some?
       && (c.targetRelayId.None? || IsBlank(c.targetRelayId.value) || c.targetRelayId.value == cfg.relayId)
       && c.payloadBytes <= cfg.maxFrameBytes && c.direction.Some?
    then Some(Item(c.workspaceId.value, c.runtimeTargetId.value, c.machineId, c.sourceRelayId.value, c.targetRelayId,
                   c.direction.value, c.payload.value, c.issuedAtMs, c.signature))
    else None
  }

  /** An entry of the Redis list that parsed as an envelope. */
  datatype Envelope = Envelope(
    workspaceId: string, runtimeTargetId: string, machineId: Option<string>, sourceRelayId: string,
    targetRelayId: Option<string>, direction: Option<Direction>, payload: string, payloadBytes: nat,
    issuedAtMs: Option<int>, signature: Option<string>)

  function RedisItem(cfg: Config, raw: Option<Envelope>): Option<Item> {
    if && raw.Some?
       && raw.value.payloadBytes <= cfg.maxFrameBytes
       && (raw.value.targetRelayId.None? || IsBlank(raw.value.targetRelayId.value) || raw.value.targetRelayId.value == cfg.relayId)
       && raw.value.direction.Some?
    then var e := raw.value;
         Some(Item(e.workspaceId, e.runtimeTargetId, e.machineId, e.sourceRelayId, e.targetRelayId, e.direction.value,
                   e.payload, e.issuedAtMs, e.signature))
    else None
  }

  function BusItems(cfg: Config, raw: seq<PullFrame>): (r: seq<Option<Item>>)
    ensures |r| == |raw| && forall i :: 0 <= i < |raw| ==> r[i] == BusItem(cfg, raw[i])
  {
    seq(|raw|, i requires 0 <= i < |raw| => BusItem(cfg, raw[i]))
  }

  function RedisItems(cfg: Config, raw: seq<Option<Envelope>>): (r: seq<Option<Item>>)
    ensures |r| == |raw| && forall i :: 0 <= i < |raw| ==> r[i] == RedisItem(cfg, raw[i])
  {
    seq(|raw|, i requires 0 <= i < |raw| => RedisItem(cfg, raw[i]))
  }

  /** The highest positive id seen, from which the next pull continues. */
  function HighestId(since: int, raw: seq<PullFrame>): (r: int)
    ensures r >= since
    ensures forall i :: 0 <= i < |raw| && raw[i].id.Some? && raw[i].id.value > 0 ==> raw[i].id.value <= r
    ensures r == since || exists i :: 0 <= i < |raw| && raw[i].id == Some(r)
  {
    if raw == [] then since
    else
      var h := HighestId(since, raw[..|raw| - 1]);
      assert forall i :: 0 <= i < |raw| - 1 ==> raw[..|raw| - 1][i] == raw[i];
      HigherId(h, raw[|raw| - 1])
  }

  function HigherId(since: int, c: PullFrame): int {
    if c.id.Some? && c.id.value > 0 && c.id.value > since then c.id.value else since
  }

  lemma HighestStep(since: int, raw: seq<PullFrame>, n: nat)
    requires n < |raw|
    ensures HighestId(since, raw[..n + 1]) == HigherId(HighestId(since, raw[..n]), raw[n])
  {
    assert raw[..n + 1][..n] == raw[..n];
  }
}
