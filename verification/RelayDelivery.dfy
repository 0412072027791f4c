/** When, exactly, one frame from a daemon is answered and delivered, and what it leaves behind. */
module RelayDelivery {
  import opened Basics
  import opened OrderedMap
  import opened JsStrings
  import opened RelaySpec
  import opened RelayProofs

  function KexOf(r: Relay, key: string): Tracker { if key in r.scopes then r.scopes[key].kex else Empty() }

  function PairingOf(r: Relay, key: string): Tracker { if key in r.scopes then r.scopes[key].pairing else Empty() }

  function SessionsOf(r: Relay, key: string): Tracker { if key in r.scopes then r.scopes[key].sessions else Empty() }

  /** Tracked, and not past its time to live. */
  predicate Pending(t: Tracker, id: string, ttlMs: int, now: int) {
    id in t.data && now - t.data[id].createdAt <= ttlMs
  }

  /** A local client that is open and not over the send-buffer limit. */
  predicate Reachable(r: Relay, slow: set<Socket>, o: Owner) {
    o.clientWs.Some? && o.clientWs.value in r.open && o.clientWs.value !in slow
  }

  lemma KeptAre(t: Tracker, ttlMs: int, now: int)
    ensures forall id :: id in Keep(t, NotExpired(now, ttlMs)).data <==> Pending(t, id, ttlMs, now)
    ensures forall id :: Pending(t, id, ttlMs, now) ==> Keep(t, NotExpired(now, ttlMs)).data[id] == t.data[id]
  {
  }

  /** A key-exchange response is answered exactly when its request is pending; then it goes to the asker if
      and only if the asker is reachable, the request is used up, and the session belongs to the asker. */
  ghost predicate KexHandling(r: Relay, r': Relay, key: string, f: Frame, now: int, slow: set<Socket>)
    requires f.kind.KexResponse?
  {
    var id, sid := Trim(f.kind.requestId), Trim(f.kind.sessionId);
    if id == "" || sid == "" || !Pending(KexOf(r, key), id, REQUEST_TTL_MS, now) then r'.log == r.log
    else
      var o := KexOf(r, key).data[id];
      && |r'.log| > |r.log| && r'.log[..|r.log|] == r.log
      && r'.log[|r.log|] == KexAnswered(key, id, sid, o, if Reachable(r, slow, o) then o.clientWs else None)
      && key in r'.scopes && id !in r'.scopes[key].kex.data
      && sid in r'.scopes[key].sessions.data && r'.scopes[key].sessions.data[sid] == o.(createdAt := now)
  }

  lemma KexResponseExactly(cfg: Config, r: Relay, workspaceId: string, key: string, f: Frame, now: int, slow: set<Socket>)
    requires ValidConfig(cfg) && f.kind.KexResponse?
    ensures KexHandling(r, RouteKexResponse(cfg, r, workspaceId, key, f, now, slow), key, f, now, slow)
  {
    hide Trim, Keep, Fetched, Pending, KexHandled, Reachable;
    KeptAre(KexOf(r, key), REQUEST_TTL_MS, now);
    FetchedTrackers(r, key, workspaceId, now);
    var s := PruneKex(Fetched(r.scopes, key, workspaceId, None, now), now);
    var id, sid := Trim(f.kind.requestId), Trim(f.kind.sessionId);
    if id in s.kex.data {
      KexHandledExactly(cfg, r, key, s, id, sid, now, slow);
    }
  }

  lemma KexHandledExactly(cfg: Config, r: Relay, key: string, s: Scope, id: string, sid: string, now: int, slow: set<Socket>)
    requires ValidConfig(cfg) && id in s.kex.data
    ensures var o := s.kex.data[id];
            var r' := KexHandled(cfg, r, key, s, id, sid, now, slow);
            && |r'.log| > |r.log| && r'.log[..|r.log|] == r.log
            && r'.log[|r.log|] == KexAnswered(key, id, sid, o, if Reachable(r, slow, o) then o.clientWs else None)
            && key in r'.scopes && id !in r'.scopes[key].kex.data
            && sid in r'.scopes[key].sessions.data && r'.scopes[key].sessions.data[sid] == o.(createdAt := now)
  {
    hide Track, RelaySpec.Hand, Delete;
    var o := s.kex.data[id];
    var s' := s.(kex := Delete(s.kex, id), sessions := Track(s.sessions, sid, o.(createdAt := now), cfg.maxSessionOwnerTrack));
    TrackData(s.sessions, sid, o.(createdAt := now), cfg.maxSessionOwnerTrack);
    HandOnly(Log(Put(r, key, s'), KexAnswered(key, id, sid, o, Recipient(r, slow, o))), s', key, slow, o);
  }

  /** Handing over changes no scope, and logs at most a publication. */
  lemma HandOnly(r: Relay, s: Scope, key: string, slow: set<Socket>, o: Owner)
    ensures var r' := RelaySpec.Hand(r, s, key, slow, o);
            r'.scopes == r.scopes && |r'.log| >= |r.log| && r'.log[..|r.log|] == r.log
            && (forall i :: |r.log| <= i < |r'.log| ==> r'.log[i].Published?)
            && (Reachable(r, slow, o) ==> r'.log == r.log)
  {
  }

  /** The same for a pairing response, which binds no session. */
  ghost predicate PairingHandling(r: Relay, r': Relay, key: string, f: Frame, now: int, slow: set<Socket>)
    requires f.kind.PairingResponse?
  {
    var id := Trim(f.kind.requestId);
    if id == "" || !Pending(PairingOf(r, key), id, REQUEST_TTL_MS, now) then r'.log == r.log
    else
      var o := PairingOf(r, key).data[id];
      && |r'.log| > |r.log| && r'.log[..|r.log|] == r.log
      && r'.log[|r.log|] == PairingAnswered(key, id, o, if Reachable(r, slow, o) then o.clientWs else None)
      && key in r'.scopes && id !in r'.scopes[key].pairing.data
  }

  lemma PairingResponseExactly(r: Relay, workspaceId: string, key: string, f: Frame, now: int, slow: set<Socket>)
    requires f.kind.PairingResponse?
    ensures PairingHandling(r, RoutePairingResponse(r, workspaceId, key, f, now, slow), key, f, now, slow)
  {
    hide Trim, Keep, Fetched, Pending, PairingHandled, Reachable;
    KeptAre(PairingOf(r, key), REQUEST_TTL_MS, now);
    FetchedTrackers(r, key, workspaceId, now);
    var s := PrunePairing(Fetched(r.scopes, key, workspaceId, None, now), now);
    var id := Trim(f.kind.requestId);
    if id in s.pairing.data {
      PairingHandledExactly(r, key, s, id, slow);
    }
  }

  lemma PairingHandledExactly(r: Relay, key: string, s: Scope, id: string, slow: set<Socket>)
    requires id in s.pairing.data
    ensures var o := s.pairing.data[id];
            var r' := PairingHandled(r, key, s, id, slow);
            && |r'.log| > |r.log| && r'.log[..|r.log|] == r.log
            && r'.log[|r.log|] == PairingAnswered(key, id, o, if Reachable(r, slow, o) then o.clientWs else None)
            && key in r'.scopes && id !in r'.scopes[key].pairing.data
  {
    hide RelaySpec.Hand, Delete;
    var o := s.pairing.data[id];
    var s' := s.(pairing := Delete(s.pairing, id));
    HandOnly(Log(Put(r, key, s'), PairingAnswered(key, id, o, Recipient(r, slow, o))), s', key, slow, o);
  }

  /** A session frame is delivered exactly when its session is bound, not past its time, and the owner is
      reachable; the binding stays. */
  ghost predicate SessionHandling(r: Relay, r': Relay, key: string, sid: string, now: int, slow: set<Socket>) {
    var bound := Pending(SessionsOf(r, key), sid, SESSION_OWNER_TTL_MS, now);
    && ((|r'.log| > |r.log| && r'.log[|r.log|].SessionDelivered?) <==> bound && Reachable(r, slow, SessionsOf(r, key).data[sid]))
    && (bound && Reachable(r, slow, SessionsOf(r, key).data[sid]) ==>
          r'.log == r.log + [SessionDelivered(key, sid, SessionsOf(r, key).data[sid].clientWs.value)])
    && (bound ==> key in r'.scopes && sid in r'.scopes[key].sessions.data && r'.scopes[key].sessions.data[sid] == SessionsOf(r, key).data[sid])
  }

  lemma SessionFrameExactly(r: Relay, workspaceId: string, key: string, sid: string, now: int, slow: set<Socket>)
    ensures SessionHandling(r, RouteSessionOwned(r, workspaceId, key, sid, now, slow), key, sid, now, slow)
  {
    hide Keep, RelaySpec.Hand, Fetched;
    KeptAre(SessionsOf(r, key), SESSION_OWNER_TTL_MS, now);
    var s := PruneSessions(Fetched(r.scopes, key, workspaceId, None, now), now);
    FetchedTrackers(r, key, workspaceId, now);
    if sid in s.sessions.data {
      var o := s.sessions.data[sid];
      var to := Recipient(r, slow, o);
      var r1 := Put(r, key, s);
      HandOnly(if to.Some? then Log(r1, SessionDelivered(key, sid, to.value)) else r1, s, key, slow, o);
    }
  }

  // ----- from the daemon side -----

  /** A frame for the scope from its daemon, by websocket or over the bus, that passes the daemon's gates: within
      the rate limit and, by websocket, within the size limit and not of a weaker profile than expected. */
  predicate FromDaemon(cfg: Config, r: Relay, e: Event, key: string) {
    match e
    case Message(ws, f, allowed, _, _) =>
      && ws in r.conns && r.conns[ws].role.Daemon? && r.conns[ws].scopeKey == key
      && allowed && f.bytes <= cfg.maxFrameBytes && !(r.conns[ws].profile == Some(NoiseIkPsk2) && f.profile == Some(NoiseIk))
    case Bus(workspaceId, runtimeTargetId, _, fromClient, _, allowed, _, _) =>
      !fromClient && allowed && runtimeTargetId != "" && workspaceId + ":" + runtimeTargetId == key
    case _ => false
  }

  /** The relay when a frame from the bus reaches its handler. */
  function Touched(r: Relay, e: Event, key: string): Relay
    requires e.Bus?
  {
    Put(r, key, PruneAll(Fetched(r.scopes, key, e.workspaceId, Some(e.runtimeTargetId), e.now).(lastActivityAt := e.now), e.now))
  }

  /** What has expired goes first, and that is all. */
  lemma TouchedPending(r: Relay, e: Event, key: string, id: string)
    requires e.Bus?
    ensures var t := Touched(r, e, key);
            && t.log == r.log && t.open == r.open
            && (Pending(KexOf(t, key), id, REQUEST_TTL_MS, e.now) <==> Pending(KexOf(r, key), id, REQUEST_TTL_MS, e.now))
            && (Pending(KexOf(r, key), id, REQUEST_TTL_MS, e.now) ==> KexOf(t, key).data[id] == KexOf(r, key).data[id])
            && (Pending(PairingOf(t, key), id, REQUEST_TTL_MS, e.now) <==> Pending(PairingOf(r, key), id, REQUEST_TTL_MS, e.now))
            && (Pending(PairingOf(r, key), id, REQUEST_TTL_MS, e.now) ==> PairingOf(t, key).data[id] == PairingOf(r, key).data[id])
            && (Pending(SessionsOf(t, key), id, SESSION_OWNER_TTL_MS, e.now) <==> Pending(SessionsOf(r, key), id, SESSION_OWNER_TTL_MS, e.now))
            && (Pending(SessionsOf(r, key), id, SESSION_OWNER_TTL_MS, e.now) ==> SessionsOf(t, key).data[id] == SessionsOf(r, key).data[id])
  {
    hide Keep, Pending, Touched, KexOf, PairingOf, SessionsOf;
    TouchedTrackers(r, e, key);
    KeptPending(KexOf(r, key), id, REQUEST_TTL_MS, e.now);
    KeptPending(PairingOf(r, key), id, REQUEST_TTL_MS, e.now);
    KeptPending(SessionsOf(r, key), id, SESSION_OWNER_TTL_MS, e.now);
  }

  lemma TouchedTrackers(r: Relay, e: Event, key: string)
    requires e.Bus?
    ensures var t := Touched(r, e, key);
            && t.log == r.log && t.open == r.open
            && KexOf(t, key) == Keep(KexOf(r, key), NotExpired(e.now, REQUEST_TTL_MS))
            && PairingOf(t, key) == Keep(PairingOf(r, key), NotExpired(e.now, REQUEST_TTL_MS))
            && SessionsOf(t, key) == Keep(SessionsOf(r, key), NotExpired(e.now, SESSION_OWNER_TTL_MS))
  {
    hide Keep;
    assert Fetched(r.scopes, key, e.workspaceId, Some(e.runtimeTargetId), e.now).kex == KexOf(r, key);
  }

  lemma KeptPending(t: Tracker, id: string, ttlMs: int, now: int)
    ensures var u := Keep(t, NotExpired(now, ttlMs));
            (Pending(u, id, ttlMs, now) <==> Pending(t, id, ttlMs, now)) && (Pending(t, id, ttlMs, now) ==> u.data[id] == t.data[id])
  {
  }

  /** By websocket or over the bus, every response of the daemon is handled like that. */
  lemma KexResponseStep(cfg: Config, r: Relay, e: Event, key: string)
    requires ValidConfig(cfg) && FromDaemon(cfg, r, e, key) && e.frame.kind.KexResponse?
    ensures KexHandling(r, Step(cfg, r, e), key, e.frame, e.now, e.slow)
  {
    hide RouteKexResponse, Touched, Pending, Trim, KexOf, Reachable;
    if e.Message? {
      KexResponseExactly(cfg, r, r.conns[e.ws].workspaceId, key, e.frame, e.now, e.slow);
    } else {
      BusStep(cfg, r, e, key);
      TouchedPending(r, e, key, Trim(e.frame.kind.requestId));
      KexResponseExactly(cfg, Touched(r, e, key), e.workspaceId, key, e.frame, e.now, e.slow);
      SameReach(r, Touched(r, e, key), e.slow);
    }
  }

  lemma PairingResponseStep(cfg: Config, r: Relay, e: Event, key: string)
    requires FromDaemon(cfg, r, e, key) && e.frame.kind.PairingResponse?
    ensures PairingHandling(r, Step(cfg, r, e), key, e.frame, e.now, e.slow)
  {
    hide RoutePairingResponse, Touched, Pending, Trim, PairingOf, Reachable;
    if e.Message? {
      PairingResponseExactly(r, r.conns[e.ws].workspaceId, key, e.frame, e.now, e.slow);
    } else {
      BusStep(cfg, r, e, key);
      TouchedPending(r, e, key, Trim(e.frame.kind.requestId));
      PairingResponseExactly(Touched(r, e, key), e.workspaceId, key, e.frame, e.now, e.slow);
      SameReach(r, Touched(r, e, key), e.slow);
    }
  }

  /** So is every session frame, unless it is on the bus and a session-event relay frame too. */
  lemma SessionFrameStep(cfg: Config, r: Relay, e: Event, key: string, sid: string)
    requires FromDaemon(cfg, r, e, key) && (e.frame.kind == E2ee(sid) || e.frame.kind == KeyUpdate(sid))
    requires e.Bus? ==> e.frame.relayChannel.None?
    ensures SessionHandling(r, Step(cfg, r, e), key, sid, e.now, e.slow)
  {
    hide RouteSessionOwned, Touched, Pending, SessionsOf, Reachable;
    if e.Message? {
      SessionFrameExactly(r, r.conns[e.ws].workspaceId, key, sid, e.now, e.slow);
    } else {
      BusStep(cfg, r, e, key);
      TouchedPending(r, e, key, sid);
      SessionFrameExactly(Touched(r, e, key), e.workspaceId, key, sid, e.now, e.slow);
      SameReach(r, Touched(r, e, key), e.slow);
    }
  }

  lemma SameReach(r: Relay, t: Relay, slow: set<Socket>)
    requires r.open == t.open
    ensures forall o :: Reachable(r, slow, o) <==> Reachable(t, slow, o)
  {
  }

  lemma BusStep(cfg: Config, r: Relay, e: Event, key: string)
    requires e.Bus? && FromDaemon(cfg, r, e, key) && AllowedDaemon(e.frame)
    ensures Step(cfg, r, e) == OnDaemonBusFrame(cfg, Touched(r, e, key), e, key)
  {
    hide OnDaemonBusFrame, PruneAll, Fetched;
  }

  /** A frame that does not pass the gates, or that cannot be routed, reaches no one and changes no scope. A
      daemon's socket is closed over a gate. */
  lemma DaemonFrameRefused(cfg: Config, r: Relay, e: Event)
    requires e.Message? && Enabled(r, e) && r.conns[e.ws].role.Daemon?
    ensures var t, key := Step(cfg, r, e), r.conns[e.ws].scopeKey;
            var routed := e.frame.kind.E2ee? || e.frame.kind.KexResponse? || e.frame.kind.KeyUpdate? || e.frame.kind.PairingResponse?;
            && (!e.allowed || e.frame.bytes > cfg.maxFrameBytes ==> t == r.(open := r.open - {e.ws}))
            && (routed && !FromDaemon(cfg, r, e, key) ==> t == r.(open := r.open - {e.ws}))
            && (!routed && FromDaemon(cfg, r, e, key) ==> t == r)
  {
    hide RouteKexResponse, RoutePairingResponse, RouteSessionOwned;
  }

  lemma BusFrameRefused(cfg: Config, r: Relay, e: Event)
    requires e.Bus? && !e.fromClient && !FromDaemon(cfg, r, e, e.workspaceId + ":" + e.runtimeTargetId)
    ensures var t := Step(cfg, r, e); t.log == r.log && t.open == r.open
  {
    hide PruneAll, Fetched;
  }

  lemma FetchedTrackers(r: Relay, key: string, workspaceId: string, now: int)
    ensures var s := Fetched(r.scopes, key, workspaceId, None, now);
            s.kex == KexOf(r, key) && s.pairing == PairingOf(r, key) && s.sessions == SessionsOf(r, key)
  {
  }

  /** A key-exchange request of a runtime client within its limits is tracked under its trimmed id, the
      latest request winning, and goes to the scope's daemon if and only if that is open and not slow. */
  lemma KexRequestExactly(cfg: Config, r: Relay, ws: Socket, conn: Conn, f: Frame, allowed: bool, now: int, slow: set<Socket>)
    requires ValidConfig(cfg) && conn.scopeKey in r.scopes && f.kind.KexInit? && f.bytes <= cfg.maxFrameBytes
    requires conn.clientScope.RuntimeScope? && PassesGates(conn, f, allowed) && Trim(f.kind.requestId) != ""
    ensures var id, key, me := Trim(f.kind.requestId), conn.scopeKey, Owner(Some(ws), None, now);
            var r' := OnClientMessage(cfg, r, ws, conn, f, allowed, now, slow);
            var d := r.scopes[key].daemon;
            && key in r'.scopes && id in r'.scopes[key].kex.data && r'.scopes[key].kex.data[id] == me
            && r'.log == r.log + [KexTracked(key, id, me)]
                         + (if d.None? || d.value !in r.open then [NoLocalDaemon(ws)]
                            else if d.value in slow then [] else [ToDaemon(key, d.value)])
  {
    hide Trim, Keep, Track, PruneAll;
    var key, me := conn.scopeKey, Owner(Some(ws), None, now);
    var s := PruneAll(r.scopes[key], now);
    PruneKeepsDaemon(r.scopes[key], now);
    TrackData(s.kex, Trim(f.kind.requestId), me, cfg.maxPairingRequestTrack);
  }

  lemma PruneKeepsDaemon(s: Scope, now: int)
    ensures PruneAll(s, now).daemon == s.daemon
  {
  }
}
