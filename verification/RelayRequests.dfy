/** What is tracked and waits: over which runs a request stays tracked, so that its response is answered, and
    a session stays bound, so that its frames are delivered. */
module RelayRequests {
  import opened Basics
  import opened OrderedMap
  import opened JsStrings
  import opened RelaySpec
  import opened RelayProofs
  import opened RelayDelivery

  datatype Which = OfKex | OfPairing | OfSession

  /** A tracked key-exchange or pairing request, or a bound session. */
  datatype Request = Request(which: Which, key: string, id: string, owner: Owner)

  function TrackerOf(s: Scope, which: Which): Tracker {
    match which
    case OfKex => s.kex
    case OfPairing => s.pairing
    case OfSession => s.sessions
  }

  function Cap(cfg: Config, which: Which): nat {
    if which.OfSession? then cfg.maxSessionOwnerTrack else cfg.maxPairingRequestTrack
  }

  function TimeToLive(which: Which): int {
    if which.OfSession? then SESSION_OWNER_TTL_MS else REQUEST_TTL_MS
  }

  /** The tracker holds the request, with at most y younger ones. */
  ghost predicate HoldsAt(t: Tracker, id: string, o: Owner, y: nat) {
    id in t.data && t.data[id] == o && |Younger(t.order, id)| <= y
  }

  ghost predicate Held(r: Relay, q: Request, y: nat) {
    q.key in r.scopes && HoldsAt(TrackerOf(r.scopes[q.key], q.which), q.id, q.owner, y)
  }

  // ----- trackers -----

  lemma KeepHolds(t: Tracker, keep: Owner -> bool, id: string, o: Owner, y: nat)
    requires HoldsAt(t, id, o, y) && keep(o)
    ensures HoldsAt(Keep(t, keep), id, o, y)
  {
    assert id in Elements(t.order);
    YoungerKeep(t.order, t.data, keep, id);
    SubsetSize(Younger(Keep(t, keep).order, id), Younger(t.order, id));
  }

  lemma DeleteHolds(t: Tracker, other: string, id: string, o: Owner, y: nat)
    requires HoldsAt(t, id, o, y) && other != id
    ensures HoldsAt(Delete(t, other), id, o, y)
  {
    YoungerWithout(t.order, id, other);
    SubsetSize(Younger(Delete(t, other).order, id), Younger(t.order, id));
  }

  /** Setting another id adds at most that one to the younger ones. */
  lemma SetYounger(t: Tracker, other: string, v: Owner, id: string)
    requires id in t.data && other != id
    ensures |Younger(Set(t, other, v).order, id)| <= |Younger(t.order, id)| + 1
  {
    hide Younger;
    if other !in t.data {
      assert id in Elements(t.order);
      YoungerAppend(t.order, id, other);
    }
  }

  lemma SetHolds(t: Tracker, other: string, v: Owner, id: string, o: Owner, y: nat)
    requires HoldsAt(t, id, o, y) && other != id
    ensures HoldsAt(Set(t, other, v), id, o, y + 1)
  {
    hide Younger, Set;
    SetYounger(t, other, v, id);
  }

  lemma EvictHolds(t: Tracker, cap: nat, id: string, o: Owner, y: nat)
    requires HoldsAt(t, id, o, y) && y < cap
    ensures HoldsAt(EvictTo(t, cap), id, o, y)
  {
    hide Younger, EvictTo;
    EvictKeeps(t, cap, id);
  }

  lemma TrackHolds(t: Tracker, other: string, v: Owner, max: nat, id: string, o: Owner, y: nat)
    requires HoldsAt(t, id, o, y) && other != id && y + 1 < max
    ensures HoldsAt(Track(t, other, v, max), id, o, y + 1)
  {
    hide EvictTo, Set, HoldsAt;
    EvictHolds(t, max - 1, id, o, y);
    SetHolds(EvictTo(t, max - 1), other, v, id, o, y);
  }

  /** Where tracking puts an id: one that survives making room keeps its place, another goes to the young end. */
  ghost function Place(t: Tracker, id: string, max: nat): set<string> {
    if id in t.data && |Younger(t.order, id)| + 1 < max then Younger(t.order, id) else {}
  }

  /** `Map.set` leaves a present key where it is and puts a new one at the young end. */
  lemma SetAt(t: Tracker, id: string, o: Owner)
    ensures Younger(Set(t, id, o).order, id) == if id in t.data then Younger(t.order, id) else {}
  {
    if id !in t.data {
      assert id !in Elements(t.order);
      YoungerAppend(t.order, id, id);
    }
  }

  /** Tracking again under an id that is there makes it younger exactly if it does not survive making room. */
  lemma TrackedAt(t: Tracker, id: string, o: Owner, max: nat)
    requires max > 0
    ensures Younger(Track(t, id, o, max).order, id) == Place(t, id, max)
    ensures HoldsAt(Track(t, id, o, max), id, o, |Place(t, id, max)|)
  {
    hide Younger, EvictTo, Set;
    if id in t.data {
      EvictKeeps(t, max - 1, id);
    }
    SetAt(EvictTo(t, max - 1), id, o);
  }

  lemma TrackWithRoom(t: Tracker, id: string, o: Owner, max: nat)
    requires |t.order| < max
    ensures Track(t, id, o, max).order == if id in t.data then t.order else t.order + [id]
    ensures Track(t, id, o, max).data == t.data[id := o]
  {
    EvictOrder(t, max - 1);
    assert EvictTo(t, max - 1) == t;
  }

  /** With room for three, the older of two requests, tracked again, is still the first to go. */
  lemma TrackedAgainStaysOld(o: Owner, v: Owner)
    ensures var t := Track(Track(Empty(), "a", o, 3), "b", o, 3);
            Track(t, "a", v, 3).order == ["a", "b"] == t.order && Track(t, "a", v, 3).data["a"] == v
  {
    hide Track;
    var t := Track(Empty(), "a", o, 3);
    TrackWithRoom(Empty(), "a", o, 3);
    TrackWithRoom(t, "b", o, 3);
    TrackWithRoom(Track(t, "b", o, 3), "a", v, 3);
  }

  // ----- the log -----

  predicate Tracks(x: Effect, which: Which, key: string) {
    match which
    case OfKex => x.KexTracked? && x.scope == key
    case OfPairing => x.PairingTracked? && x.scope == key
    case OfSession => x.KexAnswered? && x.scope == key
  }

  predicate About(x: Effect, q: Request) {
    match q.which
    case OfKex => (x.KexTracked? || x.KexAnswered?) && x.scope == q.key && x.id == q.id
    case OfPairing => (x.PairingTracked? || x.PairingAnswered?) && x.scope == q.key && x.id == q.id
    case OfSession => x.KexAnswered? && x.scope == q.key && x.sessionId == q.id
  }

  /** The number of requests tracked, or sessions bound, in the scope. */
  function Count(log: seq<Effect>, which: Which, key: string): nat {
    if log == [] then 0 else Count(log[..|log| - 1], which, key) + if Tracks(log[|log| - 1], which, key) then 1 else 0
  }

  lemma {:induction false} CountGrows(l: seq<Effect>, m: seq<Effect>, which: Which, key: string)
    requires l <= m
    ensures Count(l, which, key) <= Count(m, which, key)
    decreases |m|
  {
    if |l| < |m| {
      CountGrows(l, m[..|m| - 1], which, key);
    } else {
      assert l == m;
    }
  }

  lemma CountOne(l: seq<Effect>, x: Effect, which: Which, key: string)
    ensures Count(l + [x], which, key) == Count(l, which, key) + if Tracks(x, which, key) then 1 else 0
  {
    assert (l + [x])[..|l|] == l;
  }

  /** Nothing is added about the request. */
  ghost predicate Quiet(l: seq<Effect>, m: seq<Effect>, q: Request) {
    l <= m && forall i :: |l| <= i < |m| ==> !About(m[i], q)
  }

  /** From r to t the log grows, and if it adds nothing about the request and does not overrun the
      tracker, the request stays held, with as many more younger ones as have been tracked. */
  ghost predicate Moves(cfg: Config, r: Relay, t: Relay, q: Request) {
    && r.log <= t.log
    && (Quiet(r.log, t.log, q) ==>
          forall y: nat {:trigger Held(r, q, y)} ::
            Held(r, q, y) && y + Count(t.log, q.which, q.key) - Count(r.log, q.which, q.key) < Cap(cfg, q.which) ==>
            Count(t.log, q.which, q.key) >= Count(r.log, q.which, q.key)
            && Held(t, q, y + Count(t.log, q.which, q.key) - Count(r.log, q.which, q.key)))
  }

  lemma MovesTransitive(cfg: Config, r: Relay, s: Relay, t: Relay, q: Request)
    requires Moves(cfg, r, s, q) && Moves(cfg, s, t, q)
    ensures Moves(cfg, r, t, q)
  {
    hide Held, About, Count;
    CountGrows(r.log, s.log, q.which, q.key);
    CountGrows(s.log, t.log, q.which, q.key);
    if Quiet(r.log, t.log, q) {
      assert Quiet(r.log, s.log, q) && Quiet(s.log, t.log, q);
    }
  }

  /** Where the first scope holds the request, the second one does. */
  ghost predicate Follows(s: Scope, t: Scope, q: Request) {
    forall y: nat :: HoldsAt(TrackerOf(s, q.which), q.id, q.owner, y) ==> HoldsAt(TrackerOf(t, q.which), q.id, q.owner, y)
  }

  lemma MovesSame(cfg: Config, r: Relay, t: Relay, q: Request)
    requires r.log == t.log
    requires q.key in r.scopes ==> q.key in t.scopes && Follows(r.scopes[q.key], t.scopes[q.key], q)
    ensures Moves(cfg, r, t, q)
  {
    hide HoldsAt, Count;
  }

  lemma FollowsSame(s: Scope, t: Scope, q: Request)
    requires TrackerOf(s, q.which) == TrackerOf(t, q.which)
    ensures Follows(s, t, q)
  {
    hide HoldsAt;
  }

  /** Logging something that is not a track of this kind in this scope. */
  lemma MovesLog(cfg: Config, r: Relay, x: Effect, q: Request)
    requires !Tracks(x, q.which, q.key)
    ensures Moves(cfg, r, Log(r, x), q)
  {
    hide HoldsAt, Count;
    CountOne(r.log, x, q.which, q.key);
  }

  lemma MovesPut(cfg: Config, r: Relay, key: string, s: Scope, q: Request)
    requires key == q.key && key in r.scopes ==> Follows(r.scopes[key], s, q)
    ensures Moves(cfg, r, Put(r, key, s), q)
  {
    hide HoldsAt;
    if q.key in r.scopes {
      FollowsSame(r.scopes[q.key], r.scopes[q.key], q);
    }
    MovesSame(cfg, r, Put(r, key, s), q);
  }

  /** Only the sets of open sockets, connections or addresses differ. */
  lemma MovesOpen(cfg: Config, r: Relay, t: Relay, q: Request)
    requires t.scopes == r.scopes && t.log == r.log
    ensures Moves(cfg, r, t, q)
  {
    if q.key in r.scopes {
      FollowsSame(r.scopes[q.key], r.scopes[q.key], q);
    }
    MovesSame(cfg, r, t, q);
  }

  // ----- scopes -----

  predicate InTime(q: Request, now: int) {
    now - q.owner.createdAt <= TimeToLive(q.which)
  }

  lemma PruneFollows(s: Scope, q: Request, now: int)
    requires InTime(q, now)
    ensures Follows(s, PruneAll(s, now), q) && Follows(s, PruneKex(s, now), q) && Follows(s, PrunePairing(s, now), q)
    ensures Follows(s, PruneSessions(s, now), q)
  {
    hide Keep, HoldsAt;
    forall y: nat | HoldsAt(TrackerOf(s, q.which), q.id, q.owner, y)
      ensures HoldsAt(Keep(TrackerOf(s, q.which), NotExpired(now, TimeToLive(q.which))), q.id, q.owner, y)
    {
      KeepHolds(TrackerOf(s, q.which), NotExpired(now, TimeToLive(q.which)), q.id, q.owner, y);
    }
  }

  lemma FollowsTransitive(s: Scope, t: Scope, u: Scope, q: Request)
    requires Follows(s, t, q) && Follows(t, u, q)
    ensures Follows(s, u, q)
  {
    hide HoldsAt;
  }

  /** The entry fetched for a scope has the trackers it had. */
  lemma FetchedFollows(scopes: map<string, Scope>, key: string, workspaceId: string, runtimeTargetId: Option<string>, now: int, q: Request)
    requires key in scopes
    ensures Follows(scopes[key], Fetched(scopes, key, workspaceId, runtimeTargetId, now), q)
  {
    FollowsSame(scopes[key], Fetched(scopes, key, workspaceId, runtimeTargetId, now), q);
  }

  // ----- handlers -----

  lemma HandMoves(cfg: Config, r: Relay, s: Scope, key: string, slow: set<Socket>, o: Owner, q: Request)
    ensures Moves(cfg, r, RelaySpec.Hand(r, s, key, slow, o), q)
  {
    hide Moves;
    if LocalOpen(r, o) {
      MovesOpen(cfg, r, AfterSend(r, slow, o.clientWs.value), q);
    } else if NonEmpty(o.sourceRelayId) && NonEmpty(s.runtimeTargetId) {
      MovesLog(cfg, r, Published(key, o.sourceRelayId.value), q);
    } else {
      MovesOpen(cfg, r, r, q);
    }
  }

  /** Using up a request: what is held is not the one the log then says was answered. */
  lemma AnswerMoves(cfg: Config, r: Relay, key: string, s: Scope, t: Scope, x: Effect, q: Request)
    requires q.key == key && key in r.scopes ==> Follows(r.scopes[key], s, q)
    requires !Tracks(x, q.which, q.key)
    requires q.key != key || TrackerOf(t, q.which) == TrackerOf(s, q.which)
             || (About(x, q) && TrackerOf(t, q.which) == Delete(TrackerOf(s, q.which), q.id))
             || (!About(x, q) && exists other :: other != q.id && TrackerOf(t, q.which) == Delete(TrackerOf(s, q.which), other))
    ensures Moves(cfg, r, Log(Put(r, key, t), x), q)
  {
    hide HoldsAt, Delete, Moves;
    if About(x, q) {
      assert Log(Put(r, key, t), x).log[|r.log|] == x;
      LoudMoves(cfg, r, Log(Put(r, key, t), x), q);
    } else {
      if q.key == key && key in r.scopes {
        if TrackerOf(t, q.which) == TrackerOf(s, q.which) {
          FollowsSame(s, t, q);
        } else {
          var other :| other != q.id && TrackerOf(t, q.which) == Delete(TrackerOf(s, q.which), other);
          DeleteFollows(s, t, other, q);
        }
        FollowsTransitive(r.scopes[key], s, t, q);
      }
      MovesPut(cfg, r, key, t, q);
      MovesLog(cfg, Put(r, key, t), x, q);
      MovesTransitive(cfg, r, Put(r, key, t), Log(Put(r, key, t), x), q);
    }
  }

  lemma DeleteFollows(s: Scope, t: Scope, other: string, q: Request)
    requires other != q.id && TrackerOf(t, q.which) == Delete(TrackerOf(s, q.which), other)
    ensures Follows(s, t, q)
  {
    hide HoldsAt, Delete;
    forall y: nat | HoldsAt(TrackerOf(s, q.which), q.id, q.owner, y) ensures HoldsAt(TrackerOf(t, q.which), q.id, q.owner, y) {
      DeleteHolds(TrackerOf(s, q.which), other, q.id, q.owner, y);
    }
  }

  /** If the log says something about the request, nothing is claimed. */
  lemma LoudMoves(cfg: Config, r: Relay, t: Relay, q: Request)
    requires r.log <= t.log && exists i :: |r.log| <= i < |t.log| && About(t.log[i], q)
    ensures Moves(cfg, r, t, q)
  {
  }

  lemma KexHandledMoves(cfg: Config, r: Relay, key: string, s: Scope, id: string, sid: string, now: int, slow: set<Socket>, q: Request)
    requires id in s.kex.data && (q.key == key && key in r.scopes ==> Follows(r.scopes[key], s, q))
    ensures Moves(cfg, r, KexHandled(cfg, r, key, s, id, sid, now, slow), q)
  {
    hide Moves, RelaySpec.Hand, Track, Delete, Follows;
    var o := s.kex.data[id];
    var t := s.(kex := Delete(s.kex, id), sessions := Track(s.sessions, sid, o.(createdAt := now), cfg.maxSessionOwnerTrack));
    var x := KexAnswered(key, id, sid, o, Recipient(r, slow, o));
    var r1 := Log(Put(r, key, t), x);
    if q.which.OfSession? && q.key == key {
      BindMoves(cfg, r, key, s, t, sid, o.(createdAt := now), x, q);
    } else {
      AnswerMoves(cfg, r, key, s, t, x, q);
    }
    HandMoves(cfg, r1, t, key, slow, o, q);
    MovesTransitive(cfg, r, r1, RelaySpec.Hand(r1, t, key, slow, o), q);
  }

  /** Binding a session: another one makes one more younger one. */
  lemma BindMoves(cfg: Config, r: Relay, key: string, s: Scope, t: Scope, sid: string, o: Owner, x: Effect, q: Request)
    requires q.which.OfSession? && q.key == key && (key in r.scopes ==> Follows(r.scopes[key], s, q))
    requires x.KexAnswered? && x.scope == key && x.sessionId == sid
    requires t.sessions == Track(s.sessions, sid, o, cfg.maxSessionOwnerTrack)
    ensures Moves(cfg, r, Log(Put(r, key, t), x), q)
  {
    hide Moves, Track, Follows;
    var r' := Log(Put(r, key, t), x);
    if sid == q.id {
      assert r'.log[|r.log|] == x;
      LoudMoves(cfg, r, r', q);
    } else {
      MovesPut(cfg, r, key, s, q);
      OneMoreTracked(cfg, Put(r, key, s), r', x, q, sid, o);
      MovesTransitive(cfg, r, Put(r, key, s), r', q);
    }
  }

  lemma PairingHandledMoves(cfg: Config, r: Relay, key: string, s: Scope, id: string, slow: set<Socket>, q: Request)
    requires id in s.pairing.data && (q.key == key && key in r.scopes ==> Follows(r.scopes[key], s, q))
    ensures Moves(cfg, r, PairingHandled(r, key, s, id, slow), q)
  {
    hide Moves, RelaySpec.Hand, Delete, Follows;
    var o := s.pairing.data[id];
    var t := s.(pairing := Delete(s.pairing, id));
    var x := PairingAnswered(key, id, o, Recipient(r, slow, o));
    var r1 := Log(Put(r, key, t), x);
    AnswerMoves(cfg, r, key, s, t, x, q);
    HandMoves(cfg, r1, t, key, slow, o, q);
    MovesTransitive(cfg, r, r1, RelaySpec.Hand(r1, t, key, slow, o), q);
  }

  lemma FetchedPruneFollows(scopes: map<string, Scope>, key: string, workspaceId: string, now: int, q: Request)
    requires key in scopes && InTime(q, now)
    ensures var s := Fetched(scopes, key, workspaceId, None, now);
            Follows(scopes[key], s, q) && Follows(scopes[key], PruneKex(s, now), q)
            && Follows(scopes[key], PrunePairing(s, now), q) && Follows(scopes[key], PruneSessions(s, now), q)
  {
    hide Follows, Keep, Fetched, PruneKex, PrunePairing, PruneSessions;
    var s := Fetched(scopes, key, workspaceId, None, now);
    FetchedFollows(scopes, key, workspaceId, None, now, q);
    PruneFollows(s, q, now);
    FollowsTransitive(scopes[key], s, PruneKex(s, now), q);
    FollowsTransitive(scopes[key], s, PrunePairing(s, now), q);
    FollowsTransitive(scopes[key], s, PruneSessions(s, now), q);
  }

  lemma RouteKexMoves(cfg: Config, r: Relay, workspaceId: string, key: string, f: Frame, now: int, slow: set<Socket>, q: Request)
    requires f.kind.KexResponse? && InTime(q, now)
    ensures Moves(cfg, r, RouteKexResponse(cfg, r, workspaceId, key, f, now, slow), q)
  {
    hide Moves, Follows, Fetched, PruneKex, KexHandled, Trim;
    var s := PruneKex(Fetched(r.scopes, key, workspaceId, None, now), now);
    if key in r.scopes {
      FetchedPruneFollows(r.scopes, key, workspaceId, now, q);
    }
    MovesOpen(cfg, r, r, q);
    MovesPut(cfg, r, key, s, q);
    if Trim(f.kind.requestId) in s.kex.data {
      KexHandledMoves(cfg, r, key, s, Trim(f.kind.requestId), Trim(f.kind.sessionId), now, slow, q);
    }
  }

  lemma RoutePairingMoves(cfg: Config, r: Relay, workspaceId: string, key: string, f: Frame, now: int, slow: set<Socket>, q: Request)
    requires f.kind.PairingResponse? && InTime(q, now)
    ensures Moves(cfg, r, RoutePairingResponse(r, workspaceId, key, f, now, slow), q)
  {
    hide Moves, Follows, Fetched, PrunePairing, PairingHandled, Trim;
    var s := PrunePairing(Fetched(r.scopes, key, workspaceId, None, now), now);
    if key in r.scopes {
      FetchedPruneFollows(r.scopes, key, workspaceId, now, q);
    }
    MovesPut(cfg, r, key, s, q);
    if Trim(f.kind.requestId) in s.pairing.data {
      PairingHandledMoves(cfg, r, key, s, Trim(f.kind.requestId), slow, q);
    }
  }

  lemma RouteSessionMoves(cfg: Config, r: Relay, workspaceId: string, key: string, sid: string, now: int, slow: set<Socket>, q: Request)
    requires InTime(q, now)
    ensures Moves(cfg, r, RouteSessionOwned(r, workspaceId, key, sid, now, slow), q)
  {
    hide Moves, Follows, Fetched, PruneSessions, RelaySpec.Hand;
    var s := PruneSessions(Fetched(r.scopes, key, workspaceId, None, now), now);
    if key in r.scopes {
      FetchedPruneFollows(r.scopes, key, workspaceId, now, q);
    }
    var r1 := Put(r, key, s);
    MovesPut(cfg, r, key, s, q);
    if sid in s.sessions.data {
      var o := s.sessions.data[sid];
      var to := Recipient(r, slow, o);
      var r2 := if to.Some? then Log(r1, SessionDelivered(key, sid, to.value)) else r1;
      if to.Some? {
        MovesLog(cfg, r1, SessionDelivered(key, sid, to.value), q);
      } else {
        MovesOpen(cfg, r1, r1, q);
      }
      MovesTransitive(cfg, r, r1, r2, q);
      HandMoves(cfg, r2, s, key, slow, o, q);
      MovesTransitive(cfg, r, r2, RelaySpec.Hand(r2, s, key, slow, o), q);
    }
  }

  lemma FanMoves(cfg: Config, r: Relay, key: string, channel: string, group: set<Socket>, slow: set<Socket>, q: Request)
    ensures Moves(cfg, r, Fan(r, key, channel, group, slow), q)
  {
    hide Moves;
    var r1 := r.(open := r.open - (group * slow));
    MovesOpen(cfg, r, r1, q);
    MovesLog(cfg, r1, Fanned(key, channel, (group * r.open) - slow), q);
    MovesTransitive(cfg, r, r1, Fan(r, key, channel, group, slow), q);
  }

  lemma RouteSessionEventMoves(cfg: Config, r: Relay, workspaceId: string, key: string, raw: string, now: int, slow: set<Socket>, q: Request)
    ensures Moves(cfg, r, RouteSessionEvent(r, workspaceId, key, raw, now, slow), q)
  {
    hide Moves, Follows, Fetched, Trim, Fan;
    MovesOpen(cfg, r, r, q);
    var s := Fetched(r.scopes, key, workspaceId, None, now);
    if key in r.scopes {
      FetchedFollows(r.scopes, key, workspaceId, None, now, q);
    }
    MovesPut(cfg, r, key, s, q);
    var r1 := Put(r, key, s);
    FanMoves(cfg, r1, key, Trim(raw), Subscribers(s, Trim(raw)), slow, q);
    MovesTransitive(cfg, r, r1, Fan(r1, key, Trim(raw), Subscribers(s, Trim(raw)), slow), q);
  }

  /** Tracking a request: another one of the same kind and scope makes one more younger one. */
  lemma TrackMoves(cfg: Config, r: Relay, key: string, id: string, o: Owner, which: Which, q: Request)
    requires key in r.scopes && !which.OfSession?
    ensures Moves(cfg, r, Asked(cfg, r, key, id, o, which), q)
  {
    hide Track, HoldsAt, Moves;
    var s := r.scopes[key];
    var x := if which.OfKex? then KexTracked(key, id, o) else PairingTracked(key, id, o);
    var t := if which.OfKex? then s.(kex := Track(s.kex, id, o, cfg.maxPairingRequestTrack))
             else s.(pairing := Track(s.pairing, id, o, cfg.maxPairingRequestTrack));
    var r' := Log(Put(r, key, t), x);
    if About(x, q) {
      assert r'.log[|r.log|] == x;
      LoudMoves(cfg, r, r', q);
    } else if key == q.key && which == q.which {
      OneMoreTracked(cfg, r, r', x, q, id, o);
    } else {
      if which != q.which {
        FollowsSame(s, t, q);
      }
      MovesPut(cfg, r, key, t, q);
      MovesLog(cfg, Put(r, key, t), x, q);
      MovesTransitive(cfg, r, Put(r, key, t), r', q);
    }
  }

  /** The relay when a request has been tracked. */
  function Asked(cfg: Config, r: Relay, key: string, id: string, o: Owner, which: Which): Relay
    requires key in r.scopes
  {
    var s := r.scopes[key];
    if which.OfKex? then Log(Put(r, key, s.(kex := Track(s.kex, id, o, cfg.maxPairingRequestTrack))), KexTracked(key, id, o))
    else Log(Put(r, key, s.(pairing := Track(s.pairing, id, o, cfg.maxPairingRequestTrack))), PairingTracked(key, id, o))
  }

  lemma OneMoreTracked(cfg: Config, r: Relay, t: Relay, x: Effect, q: Request, id: string, o: Owner)
    requires q.key in r.scopes && q.key in t.scopes && id != q.id && Tracks(x, q.which, q.key)
    requires t.log == r.log + [x]
    requires TrackerOf(t.scopes[q.key], q.which) == Track(TrackerOf(r.scopes[q.key], q.which), id, o, Cap(cfg, q.which))
    ensures Moves(cfg, r, t, q)
  {
    hide Track, HoldsAt, Count;
    CountOne(r.log, x, q.which, q.key);
    forall y: nat | Held(r, q, y) && y + 1 < Cap(cfg, q.which) ensures Held(t, q, y + 1) {
      TrackHolds(TrackerOf(r.scopes[q.key], q.which), id, o, Cap(cfg, q.which), q.id, q.owner, y);
    }
  }

  lemma TrackRequestMoves(cfg: Config, r: Relay, key: string, f: Frame, o: Owner, q: Request)
    requires key in r.scopes
    ensures Moves(cfg, r, TrackRequest(cfg, r, key, f, o), q)
  {
    hide Track, Trim, Moves;
    MovesOpen(cfg, r, r, q);
    match f.kind {
      case KexInit(raw) => TrackMoves(cfg, r, key, Trim(raw), o, OfKex, q);
      case PairingRequest(raw) => TrackMoves(cfg, r, key, Trim(raw), o, OfPairing, q);
      case _ =>
    }
  }

  lemma ToScopeDaemonMoves(cfg: Config, r: Relay, key: string, slow: set<Socket>, q: Request)
    requires key in r.scopes && r.scopes[key].daemon.Some?
    ensures Moves(cfg, r, ToScopeDaemon(r, key, slow), q)
  {
    hide Moves;
    var d := r.scopes[key].daemon.value;
    var r1 := if Sendable(r, slow, d) then Log(r, ToDaemon(key, d)) else r;
    if Sendable(r, slow, d) {
      MovesLog(cfg, r, ToDaemon(key, d), q);
    } else {
      MovesOpen(cfg, r, r, q);
    }
    MovesOpen(cfg, r1, AfterSend(r1, slow, d), q);
    MovesTransitive(cfg, r, r1, AfterSend(r1, slow, d), q);
  }

  // ----- events -----

  lemma SessionEventMoves(cfg: Config, r: Relay, ws: Socket, conn: Conn, f: Frame, allowed: bool, now: int, slow: set<Socket>, q: Request)
    requires SessionEventClient(f)
    ensures Moves(cfg, r, OnSessionEventFrame(r, ws, conn, f, allowed, now, slow), q)
  {
    hide Moves, Follows, Fetched, Trim, Fan, HoldsAt, Put;
    var channel := Trim(f.kind.channel);
    var key := conn.scopeKey;
    var s := Fetched(r.scopes, key, conn.workspaceId, None, now);
    MovesOpen(cfg, r, AfterSend(r, slow, ws), q);
    MovesOpen(cfg, r, CloseSocket(r, ws), q);
    var rest := Subscribers(s, channel) - {ws};
    if f.kind.ViewerPresence? {
      SubscribersMove(cfg, r, key, conn.workspaceId, now, s.subscribers, q);
      var r1 := Put(r, key, s);
      assert s == s.(subscribers := s.subscribers);
      FanMoves(cfg, r1, key, channel, rest, slow, q);
      MovesTransitive(cfg, r, r1, Fan(r1, key, channel, rest, slow), q);
    } else {
      var subscribers := if f.kind.Subscribe? then s.subscribers[channel := Subscribers(s, channel) + {ws}]
                         else if rest == {} then s.subscribers - {channel} else s.subscribers[channel := rest];
      SubscribersMove(cfg, r, key, conn.workspaceId, now, subscribers, q);
      var r1 := Put(r, key, s.(subscribers := subscribers));
      MovesOpen(cfg, r1, AfterSend(r1, slow, ws), q);
      MovesTransitive(cfg, r, r1, AfterSend(r1, slow, ws), q);
    }
  }

  /** The fetched entry with other subscribers. */
  lemma SubscribersMove(cfg: Config, r: Relay, key: string, workspaceId: string, now: int, subscribers: map<string, set<Socket>>, q: Request)
    ensures Moves(cfg, r, Put(r, key, Fetched(r.scopes, key, workspaceId, None, now).(subscribers := subscribers)), q)
  {
    hide HoldsAt, Moves, Fetched;
    var s := Fetched(r.scopes, key, workspaceId, None, now);
    var t := s.(subscribers := subscribers);
    if key in r.scopes {
      FetchedFollows(r.scopes, key, workspaceId, None, now, q);
      FollowsSame(s, t, q);
      FollowsTransitive(r.scopes[key], s, t, q);
    }
    MovesPut(cfg, r, key, t, q);
  }

  lemma ClientMessageMoves(cfg: Config, r: Relay, ws: Socket, conn: Conn, f: Frame, allowed: bool, now: int, slow: set<Socket>, q: Request)
    requires conn.scopeKey in r.scopes && InTime(q, now)
    ensures Moves(cfg, r, OnClientMessage(cfg, r, ws, conn, f, allowed, now, slow), q)
  {
    hide Moves, Follows, PruneAll, TrackRequest, ToScopeDaemon, OnSessionEventFrame, PassesGates;
    var key := conn.scopeKey;
    MovesOpen(cfg, r, CloseSocket(r, ws), q);
    MovesOpen(cfg, r, AfterSend(r, slow, ws), q);
    if SessionEventClient(f) {
      SessionEventMoves(cfg, r, ws, conn, f, allowed, now, slow, q);
    } else {
      var r1 := Put(r, key, PruneAll(r.scopes[key], now));
      PruneFollows(r.scopes[key], q, now);
      MovesPut(cfg, r, key, PruneAll(r.scopes[key], now), q);
      MovesOpen(cfg, r1, CloseSocket(r1, ws), q);
      MovesTransitive(cfg, r, r1, CloseSocket(r1, ws), q);
      TrackedAndPassed(cfg, r1, key, f, Owner(Some(ws), None, now), ws, slow, q);
      var r2 := TrackRequest(cfg, r1, key, f, Owner(Some(ws), None, now));
      MovesTransitive(cfg, r, r1, if HasOpenDaemon(r2, key) then ToScopeDaemon(r2, key, slow) else Log(r2, NoLocalDaemon(ws)), q);
    }
  }

  lemma TrackedAndPassed(cfg: Config, r: Relay, key: string, f: Frame, o: Owner, ws: Socket, slow: set<Socket>, q: Request)
    requires key in r.scopes
    ensures var r2 := TrackRequest(cfg, r, key, f, o);
            && Moves(cfg, r, if HasOpenDaemon(r2, key) then ToScopeDaemon(r2, key, slow) else Log(r2, NoLocalDaemon(ws)), q)
            && Moves(cfg, r, if HasOpenDaemon(r2, key) then ToScopeDaemon(r2, key, slow) else r2, q)
  {
    hide Moves, TrackRequest, ToScopeDaemon;
    var r2 := TrackRequest(cfg, r, key, f, o);
    TrackRequestMoves(cfg, r, key, f, o, q);
    if HasOpenDaemon(r2, key) {
      ToScopeDaemonMoves(cfg, r2, key, slow, q);
      MovesTransitive(cfg, r, r2, ToScopeDaemon(r2, key, slow), q);
    } else {
      MovesLog(cfg, r2, NoLocalDaemon(ws), q);
      MovesTransitive(cfg, r, r2, Log(r2, NoLocalDaemon(ws)), q);
    }
  }

  lemma DaemonMessageMoves(cfg: Config, r: Relay, ws: Socket, conn: Conn, f: Frame, allowed: bool, now: int, slow: set<Socket>, q: Request)
    requires InTime(q, now)
    ensures Moves(cfg, r, OnDaemonMessage(cfg, r, ws, conn, f, allowed, now, slow), q)
  {
    hide Moves, RouteKexResponse, RoutePairingResponse, RouteSessionOwned;
    MovesOpen(cfg, r, CloseSocket(r, ws), q);
    MovesOpen(cfg, r, r, q);
    match f.kind {
      case PairingResponse(_) => RoutePairingMoves(cfg, r, conn.workspaceId, conn.scopeKey, f, now, slow, q);
      case KexResponse(_, _) => RouteKexMoves(cfg, r, conn.workspaceId, conn.scopeKey, f, now, slow, q);
      case E2ee(sid) => RouteSessionMoves(cfg, r, conn.workspaceId, conn.scopeKey, sid, now, slow, q);
      case KeyUpdate(sid) => RouteSessionMoves(cfg, r, conn.workspaceId, conn.scopeKey, sid, now, slow, q);
      case _ =>
    }
  }

  /** The entry fetched, touched and pruned. */
  lemma TouchMoves(cfg: Config, r: Relay, key: string, workspaceId: string, runtimeTargetId: Option<string>, now: int, q: Request)
    requires InTime(q, now)
    ensures Moves(cfg, r, Put(r, key, PruneAll(Fetched(r.scopes, key, workspaceId, runtimeTargetId, now).(lastActivityAt := now), now)), q)
  {
    hide Moves, Follows, PruneAll, HoldsAt, Fetched;
    var s := Fetched(r.scopes, key, workspaceId, runtimeTargetId, now);
    var t := s.(lastActivityAt := now);
    if key in r.scopes {
      FetchedFollows(r.scopes, key, workspaceId, runtimeTargetId, now, q);
      FollowsSame(s, t, q);
      PruneFollows(t, q, now);
      FollowsTransitive(r.scopes[key], s, t, q);
      FollowsTransitive(r.scopes[key], t, PruneAll(t, now), q);
    }
    MovesPut(cfg, r, key, PruneAll(t, now), q);
  }

  lemma DaemonBusFrameMoves(cfg: Config, r: Relay, e: Event, key: string, q: Request)
    requires e.Bus? && InTime(q, e.now)
    ensures Moves(cfg, r, OnDaemonBusFrame(cfg, r, e, key), q)
  {
    hide Moves, RouteKexResponse, RoutePairingResponse, RouteSessionOwned, RouteSessionEvent;
    MovesOpen(cfg, r, r, q);
    match e.frame.kind {
      case PairingResponse(_) => RoutePairingMoves(cfg, r, e.workspaceId, key, e.frame, e.now, e.slow, q);
      case KexResponse(_, _) => RouteKexMoves(cfg, r, e.workspaceId, key, e.frame, e.now, e.slow, q);
      case E2ee(sid) => RouteSessionMoves(cfg, r, e.workspaceId, key, sid, e.now, e.slow, q);
      case KeyUpdate(sid) => RouteSessionMoves(cfg, r, e.workspaceId, key, sid, e.now, e.slow, q);
      case _ =>
    }
    if e.frame.relayChannel.Some? {
      RouteSessionEventMoves(cfg, r, e.workspaceId, key, e.frame.relayChannel.value, e.now, e.slow, q);
    }
  }

  lemma BusMoves(cfg: Config, r: Relay, e: Event, q: Request)
    requires e.Bus? && InTime(q, e.now)
    ensures Moves(cfg, r, OnBus(cfg, r, e), q)
  {
    hide Moves, PruneAll, Fetched, TrackRequest, ToScopeDaemon, OnDaemonBusFrame;
    MovesOpen(cfg, r, r, q);
    if e.runtimeTargetId != "" {
      var key := RuntimeScopeKey(e.workspaceId, Some(e.runtimeTargetId));
      var s := PruneAll(Fetched(r.scopes, key, e.workspaceId, Some(e.runtimeTargetId), e.now).(lastActivityAt := e.now), e.now);
      var r1 := Put(r, key, s);
      TouchMoves(cfg, r, key, e.workspaceId, Some(e.runtimeTargetId), e.now, q);
      if e.fromClient {
        var o := Owner(None, Some(e.sourceRelayId), e.now);
        TrackedAndPassed(cfg, r1, key, e.frame, o, 0, e.slow, q);
        var r2 := TrackRequest(cfg, r1, key, e.frame, o);
        MovesTransitive(cfg, r, r1, if HasOpenDaemon(r2, key) then ToScopeDaemon(r2, key, e.slow) else r2, q);
      } else {
        DaemonBusFrameMoves(cfg, r1, e, key, q);
        MovesTransitive(cfg, r, r1, OnDaemonBusFrame(cfg, r1, e, key), q);
      }
    }
  }

  /** The event is not later than the request's time to live, does not close the asker, and leaves the
      scope's daemon in place. */
  predicate Spares(r: Relay, t: Relay, e: Event, q: Request) {
    && (e.LeaveOpen? || InTime(q, e.now))
    && (e.Closed? ==> q.owner.clientWs != Some(e.ws))
    && (q.key in r.scopes && q.key in t.scopes ==> t.scopes[q.key].daemon == r.scopes[q.key].daemon)
  }

  lemma ConnectMoves(cfg: Config, r: Relay, ws: Socket, conn: Conn, generation: Option<nat>, now: int, q: Request)
    requires InTime(q, now) && OpenDaemonsCurrent(r.conns, r.scopes, r.open)
    requires q.key in r.scopes ==> r.scopes[q.key].daemon != Some(ws)
    requires var t := OnConnect(r, ws, conn, generation, now);
             q.key in r.scopes && q.key in t.scopes ==> t.scopes[q.key].daemon == r.scopes[q.key].daemon
    ensures Moves(cfg, r, OnConnect(r, ws, conn, generation, now), q)
  {
    hide Moves, PruneAll, Fetched, HoldsAt, AdjustIp, OpenDaemonsCurrent;
    var key := conn.scopeKey;
    var s := PruneAll(Fetched(r.scopes, key, conn.workspaceId, conn.runtimeTargetId, now).(lastActivityAt := now), now);
    var r1 := Put(r, key, s);
    TouchMoves(cfg, r, key, conn.workspaceId, conn.runtimeTargetId, now, q);
    match conn.role {
      case Worker =>
        MovesOpen(cfg, r1, Admit(r1, ws, conn), q);
        MovesTransitive(cfg, r, r1, Admit(r1, ws, conn), q);
      case Client =>
        var t := s.(clients := s.clients + {ws});
        FollowsSame(s, t, q);
        AdmitMoves(cfg, r, r1, key, s, t, ws, conn, q);
      case Daemon =>
        if !(generation.Some? && s.generation.Some? && generation.value < s.generation.value) && !(s.daemon.Some? && s.daemon.value in r.open) {
          var t := Handed(s, ws, generation);
          if key != q.key || key !in r.scopes {
            NoScopeMoves(cfg, r, Put(r1, key, t), q);
            MovesOpen(cfg, Put(r1, key, t), Admit(Put(r1, key, t), ws, conn), q);
            MovesTransitive(cfg, r, Put(r1, key, t), Admit(Put(r1, key, t), ws, conn), q);
          }
        }
    }
  }

  lemma AdmitMoves(cfg: Config, r: Relay, r1: Relay, key: string, s: Scope, t: Scope, ws: Socket, conn: Conn, q: Request)
    requires Moves(cfg, r, r1, q) && key in r1.scopes && r1.scopes[key] == s && Follows(s, t, q)
    ensures Moves(cfg, r, Admit(Put(r1, key, t), ws, conn), q)
  {
    hide Moves, Follows, AdjustIp;
    MovesPut(cfg, r1, key, t, q);
    MovesOpen(cfg, Put(r1, key, t), Admit(Put(r1, key, t), ws, conn), q);
    MovesTransitive(cfg, r, r1, Put(r1, key, t), q);
    MovesTransitive(cfg, r, Put(r1, key, t), Admit(Put(r1, key, t), ws, conn), q);
  }

  /** The request's scope is not registered, or not touched. */
  lemma NoScopeMoves(cfg: Config, r: Relay, t: Relay, q: Request)
    requires r.log == t.log
    requires q.key in r.scopes ==> q.key in t.scopes && t.scopes[q.key] == r.scopes[q.key]
    ensures Moves(cfg, r, t, q)
  {
    if q.key in r.scopes {
      FollowsSame(r.scopes[q.key], t.scopes[q.key], q);
    }
    MovesSame(cfg, r, t, q);
  }

  lemma ClosedMoves(cfg: Config, r: Relay, ws: Socket, now: int, q: Request)
    requires ws in r.conns && q.owner.clientWs != Some(ws)
    requires var t := OnClosed(r, ws, now);
             q.key in r.scopes && q.key in t.scopes ==> t.scopes[q.key].daemon == r.scopes[q.key].daemon
    ensures Moves(cfg, r, OnClosed(r, ws, now), q)
  {
    hide Moves, AdjustIp, Keep, HoldsAt;
    var conn := r.conns[ws];
    var key := conn.scopeKey;
    var r1 := r.(conns := r.conns - {ws}, open := r.open - {ws}, ips := AdjustIp(r.ips, conn.ip, -1));
    MovesOpen(cfg, r, r1, q);
    if !conn.role.Worker? && key in r.scopes {
      var s := r.scopes[key];
      var t := if conn.role.Client? then RemoveClient(s, ws, now) else ClearDaemon(s, ws, now);
      if key == q.key {
        if conn.role.Client? {
          RemoveFollows(s, ws, now, q);
        } else {
          assert OnClosed(r, ws, now).scopes[key] == t;
          FollowsSame(s, t, q);
        }
      }
      MovesPut(cfg, r1, key, t, q);
      MovesTransitive(cfg, r, r1, Put(r1, key, t), q);
    }
  }

  lemma RemoveFollows(s: Scope, ws: Socket, now: int, q: Request)
    requires q.owner.clientWs != Some(ws)
    ensures Follows(s, RemoveClient(s, ws, now), q)
  {
    hide Keep, HoldsAt;
    forall y: nat | HoldsAt(TrackerOf(s, q.which), q.id, q.owner, y)
      ensures HoldsAt(Keep(TrackerOf(s, q.which), NotOwnedBy(ws)), q.id, q.owner, y)
    {
      KeepHolds(TrackerOf(s, q.which), NotOwnedBy(ws), q.id, q.owner, y);
    }
  }

  /** A scope with a tracked request of a local client is not idle. */
  lemma PruneMoves(cfg: Config, r: Relay, ttlMs: int, now: int, q: Request)
    requires Inv(cfg, r) && q.owner.clientWs.Some?
    ensures Moves(cfg, r, r.(scopes := WithoutIdle(r.scopes, ttlMs, now)), q)
  {
    hide Moves, Inv, Held;
    var t := r.(scopes := WithoutIdle(r.scopes, ttlMs, now));
    if q.key in r.scopes && Idle(r.scopes[q.key], ttlMs, now) {
      forall y: nat {:trigger Held(r, q, y)} | true ensures !Held(r, q, y) {
        IdleHoldsNothing(cfg, r, q, y);
      }
      NotHeldMoves(cfg, r, t, q);
    } else {
      NoScopeMoves(cfg, r, t, q);
    }
  }

  lemma IdleHoldsNothing(cfg: Config, r: Relay, q: Request, y: nat)
    requires Inv(cfg, r) && q.owner.clientWs.Some? && q.key in r.scopes && r.scopes[q.key].clients == {}
    ensures !Held(r, q, y)
  {
    hide Inv, Younger, Logged, MembersOk;
    InvScope(cfg, r, q.key);
  }

  lemma NotHeldMoves(cfg: Config, r: Relay, t: Relay, q: Request)
    requires r.log == t.log && forall y: nat {:trigger Held(r, q, y)} :: !Held(r, q, y)
    ensures Moves(cfg, r, t, q)
  {
    hide Held, Count;
  }

  /** Every event that spares the request keeps it held. */
  lemma StepMoves(cfg: Config, r: Relay, e: Event, q: Request)
    requires ValidConfig(cfg) && Inv(cfg, r) && q.owner.clientWs.Some? && Spares(r, Step(cfg, r, e), e, q)
    ensures Moves(cfg, r, Step(cfg, r, e), q)
  {
    hide Moves, OnConnect, OnClientMessage, OnDaemonMessage, OnBus, OnClosed, WithoutIdle, Looked, ScopeOk, IpsOk, AllJustified;
    MovesOpen(cfg, r, r, q);
    if Enabled(r, e) {
      match e {
        case Connect(ws, conn, generation, now) =>
          NewIsNoDaemon(cfg, r, ws, q.key);
          ConnectMoves(cfg, r, ws, conn, generation, now, q);
        case Message(ws, f, allowed, now, slow) =>
          if r.conns[ws].role.Daemon? {
            DaemonMessageMoves(cfg, r, ws, r.conns[ws], f, allowed, now, slow, q);
          } else if r.conns[ws].scopeKey in r.scopes {
            ClientMessageMoves(cfg, r, ws, r.conns[ws], f, allowed, now, slow, q);
          }
        case Bus(_, _, _, _, _, _, _, _) => BusMoves(cfg, r, e, q);
        case LeaveOpen(ws) => MovesOpen(cfg, r, CloseSocket(r, ws), q);
        case Closed(ws, now) => ClosedMoves(cfg, r, ws, now, q);
        case Prune(ttlMs, now) => PruneMoves(cfg, r, ttlMs, now, q);
        case Upgrade(key, now) => LookMoves(cfg, r, key, now, q);
      }
    }
  }

  lemma LookMoves(cfg: Config, r: Relay, key: string, now: int, q: Request)
    ensures Moves(cfg, r, Put(r, key, Looked(r.scopes, key, now)), q)
  {
    NoScopeMoves(cfg, r, Put(r, key, Looked(r.scopes, key, now)), q);
  }

  lemma NewIsNoDaemon(cfg: Config, r: Relay, ws: Socket, key: string)
    requires Inv(cfg, r) && ws !in r.conns
    ensures key in r.scopes ==> r.scopes[key].daemon != Some(ws)
  {
    hide TrackersOk, Logged, IpsOk, AllJustified;
    if key in r.scopes {
      InvScope(cfg, r, key);
    }
  }

  // ----- runs -----

  /** From step m to step n every event spares the request. */
  ghost predicate SparedFrom(states: seq<Relay>, events: seq<Event>, q: Request, m: nat, n: nat)
    requires |states| == |events| + 1 && n <= |events|
  {
    forall i :: m <= i < n ==> Spares(states[i], states[i + 1], events[i], q)
  }

  lemma {:induction false} RunMoves(cfg: Config, states: seq<Relay>, events: seq<Event>, q: Request, m: nat, n: nat)
    requires ValidConfig(cfg) && |states| == |events| + 1 && IsRun(cfg, states, events) && m <= n <= |events|
    requires q.owner.clientWs.Some? && SparedFrom(states, events, q, m, n)
    ensures Moves(cfg, states[m], states[n], q)
    decreases n
  {
    hide Moves, Step, Inv, Spares;
    if m == n {
      MovesOpen(cfg, states[m], states[n], q);
    } else {
      RunMoves(cfg, states, events, q, m, n - 1);
      EveryRunKeeps(cfg, states, events, n - 1);
      assert Spares(states[n - 1], states[n], events[n - 1], q);
      StepMoves(cfg, states[n - 1], events[n - 1], q);
      MovesTransitive(cfg, states[m], states[n - 1], states[n], q);
    }
  }

  /** By step m the request is tracked with at most y younger ones; until step n no event is later than its
      time to live, closes its client or changes the scope's daemon; the log says nothing more about it, and
      those y and the others of its kind tracked in the scope are fewer than the cap. */
  ghost predicate Waits(cfg: Config, states: seq<Relay>, events: seq<Event>, q: Request, y: nat, m: nat, n: nat)
    requires |states| == |events| + 1 && m <= n <= |events|
  {
    && Held(states[m], q, y)
    && SparedFrom(states, events, q, m, n)
    && Quiet(states[m].log, states[n].log, q)
    && y + Count(states[n].log, q.which, q.key) - Count(states[m].log, q.which, q.key) < Cap(cfg, q.which)
  }

  /** In every run, what waits is still tracked. */
  lemma WaitingIsTracked(cfg: Config, states: seq<Relay>, events: seq<Event>, q: Request, y: nat, m: nat, n: nat)
    requires ValidConfig(cfg) && |states| == |events| + 1 && IsRun(cfg, states, events) && m <= n <= |events|
    requires q.owner.clientWs.Some? && Waits(cfg, states, events, q, y, m, n)
    ensures q.key in states[n].scopes
    ensures var t := TrackerOf(states[n].scopes[q.key], q.which); q.id in t.data && t.data[q.id] == q.owner
  {
    hide IsRun, SparedFrom, Count, Quiet;
    RunMoves(cfg, states, events, q, m, n);
  }

  // ----- where waiting begins -----

  /** A request of a client within its limits is held from the step that tracks it, at the place that
      tracking gives its id. */
  lemma TrackedIsHeld(cfg: Config, r: Relay, ws: Socket, conn: Conn, f: Frame, allowed: bool, now: int, slow: set<Socket>)
    requires ValidConfig(cfg) && conn.scopeKey in r.scopes && (f.kind.KexInit? || f.kind.PairingRequest?) && f.bytes <= cfg.maxFrameBytes
    requires !conn.clientScope.SessionEventsScope? && PassesGates(conn, f, allowed) && Trim(f.kind.requestId) != ""
    ensures var which := if f.kind.KexInit? then OfKex else OfPairing; var id := Trim(f.kind.requestId);
            Held(OnClientMessage(cfg, r, ws, conn, f, allowed, now, slow), Request(which, conn.scopeKey, id, Owner(Some(ws), None, now)),
                 |Place(TrackerOf(PruneAll(r.scopes[conn.scopeKey], now), which), id, cfg.maxPairingRequestTrack)|)
  {
    hide Trim, PruneAll, Track, HoldsAt, Place, ToScopeDaemon, TrackRequest;
    var key := conn.scopeKey;
    var r1 := Put(r, key, PruneAll(r.scopes[key], now));
    RequestIsHeld(cfg, r1, key, f, Owner(Some(ws), None, now));
    var r2 := TrackRequest(cfg, r1, key, f, Owner(Some(ws), None, now));
    if HasOpenDaemon(r2, key) {
      PassedOnKeepsScopes(r2, key, slow);
    }
  }

  lemma PassedOnKeepsScopes(r: Relay, key: string, slow: set<Socket>)
    requires key in r.scopes && r.scopes[key].daemon.Some?
    ensures ToScopeDaemon(r, key, slow).scopes == r.scopes
  {
  }

  lemma RequestIsHeld(cfg: Config, r: Relay, key: string, f: Frame, o: Owner)
    requires ValidConfig(cfg) && key in r.scopes && (f.kind.KexInit? || f.kind.PairingRequest?) && Trim(f.kind.requestId) != ""
    ensures var which := if f.kind.KexInit? then OfKex else OfPairing; var id := Trim(f.kind.requestId);
            Held(TrackRequest(cfg, r, key, f, o), Request(which, key, id, o),
                 |Place(TrackerOf(r.scopes[key], which), id, cfg.maxPairingRequestTrack)|)
  {
    hide Trim, Track, HoldsAt, Place;
    TrackedAt(TrackerOf(r.scopes[key], if f.kind.KexInit? then OfKex else OfPairing), Trim(f.kind.requestId), o, cfg.maxPairingRequestTrack);
  }

  /** A session is held from the response that binds it. */
  lemma BoundIsHeld(cfg: Config, r: Relay, key: string, s: Scope, id: string, sid: string, now: int, slow: set<Socket>)
    requires ValidConfig(cfg) && id in s.kex.data
    ensures Held(KexHandled(cfg, r, key, s, id, sid, now, slow), Request(OfSession, key, sid, s.kex.data[id].(createdAt := now)),
                 |Place(s.sessions, sid, cfg.maxSessionOwnerTrack)|)
  {
    hide Track, HoldsAt, Place, RelaySpec.Hand, Delete;
    var o := s.kex.data[id];
    var t := s.(kex := Delete(s.kex, id), sessions := Track(s.sessions, sid, o.(createdAt := now), cfg.maxSessionOwnerTrack));
    TrackedAt(s.sessions, sid, o.(createdAt := now), cfg.maxSessionOwnerTrack);
    HandOnly(Log(Put(r, key, t), KexAnswered(key, id, sid, o, Recipient(r, slow, o))), t, key, slow, o);
  }

  // ----- where it ends -----

  lemma RunStep(cfg: Config, states: seq<Relay>, events: seq<Event>, n: nat)
    requires |states| == |events| + 1 && IsRun(cfg, states, events) && n < |events|
    ensures states[n + 1] == Step(cfg, states[n], events[n])
  {
    hide Step;
  }

  /** In every run, the response of the scope's daemon to a waiting key-exchange request is answered to its
      client, which receives it exactly if it is open and not slow. */
  lemma WaitingKexIsAnswered(cfg: Config, states: seq<Relay>, events: seq<Event>, q: Request, y: nat, m: nat, n: nat)
    requires ValidConfig(cfg) && |states| == |events| + 1 && IsRun(cfg, states, events) && m <= n < |events|
    requires q.which.OfKex? && q.owner.clientWs.Some? && Waits(cfg, states, events, q, y, m, n)
    requires var e := events[n];
             && FromDaemon(cfg, states[n], e, q.key) && InTime(q, e.now)
             && e.frame.kind.KexResponse? && Trim(e.frame.kind.requestId) == q.id != "" && Trim(e.frame.kind.sessionId) != ""
    ensures var e, l := events[n], |states[n].log|; var c := q.owner.clientWs.value;
            && |states[n + 1].log| > l
            && states[n + 1].log[l] == KexAnswered(q.key, q.id, Trim(e.frame.kind.sessionId), q.owner,
                                                  if c in states[n].open && c !in e.slow then Some(c) else None)
  {
    hide IsRun, Waits, Trim, Step, FromDaemon;
    WaitingIsTracked(cfg, states, events, q, y, m, n);
    RunStep(cfg, states, events, n);
    KexResponseStep(cfg, states[n], events[n], q.key);
  }

  /** The same for a pairing request. */
  lemma WaitingPairingIsAnswered(cfg: Config, states: seq<Relay>, events: seq<Event>, q: Request, y: nat, m: nat, n: nat)
    requires ValidConfig(cfg) && |states| == |events| + 1 && IsRun(cfg, states, events) && m <= n < |events|
    requires q.which.OfPairing? && q.owner.clientWs.Some? && Waits(cfg, states, events, q, y, m, n)
    requires var e := events[n];
             && FromDaemon(cfg, states[n], e, q.key) && InTime(q, e.now)
             && e.frame.kind.PairingResponse? && Trim(e.frame.kind.requestId) == q.id != ""
    ensures var e, l := events[n], |states[n].log|; var c := q.owner.clientWs.value;
            && |states[n + 1].log| > l
            && states[n + 1].log[l] == PairingAnswered(q.key, q.id, q.owner, if c in states[n].open && c !in e.slow then Some(c) else None)
  {
    hide IsRun, Waits, Trim, Step, FromDaemon;
    WaitingIsTracked(cfg, states, events, q, y, m, n);
    RunStep(cfg, states, events, n);
    PairingResponseStep(cfg, states[n], events[n], q.key);
  }

  /** In every run, an end-to-end encrypted or key-update frame of the scope's daemon for a session that
      stayed bound - on the bus, if it is no session-event relay frame too - is delivered to its client
      exactly if that is open and not slow. */
  lemma BoundSessionIsDelivered(cfg: Config, states: seq<Relay>, events: seq<Event>, q: Request, y: nat, m: nat, n: nat)
    requires ValidConfig(cfg) && |states| == |events| + 1 && IsRun(cfg, states, events) && m <= n < |events|
    requires q.which.OfSession? && q.owner.clientWs.Some? && Waits(cfg, states, events, q, y, m, n)
    requires var e := events[n];
             && FromDaemon(cfg, states[n], e, q.key) && InTime(q, e.now)
             && (e.frame.kind == E2ee(q.id) || e.frame.kind == KeyUpdate(q.id)) && (e.Bus? ==> e.frame.relayChannel.None?)
    ensures var e := events[n]; var c := q.owner.clientWs.value;
            if c in states[n].open && c !in e.slow then states[n + 1].log == states[n].log + [SessionDelivered(q.key, q.id, c)]
            else !(|states[n + 1].log| > |states[n].log| && states[n + 1].log[|states[n].log|].SessionDelivered?)
  {
    hide IsRun, Waits, Step, FromDaemon;
    WaitingIsTracked(cfg, states, events, q, y, m, n);
    RunStep(cfg, states, events, n);
    SessionFrameStep(cfg, states[n], events[n], q.key, q.id);
  }
}
