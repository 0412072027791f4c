/** When, exactly, a response leaves over the bus, and a run in which one does. */
module RelayPublishing {
  import opened Basics
  import opened OrderedMap
  import opened JsStrings
  import opened RelaySpec

  /** The last thing the step logged is a publication. */
  predicate Publishes(r: Relay, r': Relay) {
    |r'.log| > |r.log| && r'.log[|r'.log| - 1].Published?
  }

  /** For which fetches a target survives: exactly those of a registered scope that has one, when the
      workspace id is empty. */
  lemma TargetSurvivesExactly(scopes: map<string, Scope>, key: string, workspaceId: string, now: int)
    ensures NonEmpty(Fetched(scopes, key, workspaceId, None, now).runtimeTargetId)
            <==> workspaceId == "" && key in scopes && NonEmpty(scopes[key].runtimeTargetId)
  {
  }

  /** The owner is not an open local client but is known to another relay. */
  predicate Elsewhere(r: Relay, o: Owner) {
    !LocalOpen(r, o) && NonEmpty(o.sourceRelayId)
  }

  lemma HandPublishes(r: Relay, s: Scope, key: string, slow: set<Socket>, o: Owner)
    ensures Publishes(r, Hand(r, s, key, slow, o)) <==> Elsewhere(r, o) && NonEmpty(s.runtimeTargetId)
    ensures Hand(r, s, key, slow, o).log == r.log || Publishes(r, Hand(r, s, key, slow, o))
  {
  }

  /** Under which circumstances the scope keeps its target for a response. */
  predicate KeepsTarget(r: Relay, key: string, workspaceId: string) {
    workspaceId == "" && key in r.scopes && NonEmpty(r.scopes[key].runtimeTargetId)
  }

  /** A key-exchange response goes over the bus exactly when its request is tracked, its owner is known to
      another relay only, the workspace id is empty and the scope has a runtime target. */
  lemma KexResponsePublishesExactly(cfg: Config, r: Relay, workspaceId: string, key: string, f: Frame, now: int, slow: set<Socket>)
    requires f.kind.KexResponse?
    ensures var id, sid := Trim(f.kind.requestId), Trim(f.kind.sessionId);
            var tracked := PruneKex(Fetched(r.scopes, key, workspaceId, None, now), now).kex.data;
            Publishes(r, RouteKexResponse(cfg, r, workspaceId, key, f, now, slow))
            <==> id != "" && sid != "" && id in tracked && Elsewhere(r, tracked[id]) && KeepsTarget(r, key, workspaceId)
  {
    hide Trim, Track, Keep, Hand, Fetched, Elsewhere;
    var s := PruneKex(Fetched(r.scopes, key, workspaceId, None, now), now);
    var id, sid := Trim(f.kind.requestId), Trim(f.kind.sessionId);
    TargetSurvivesExactly(r.scopes, key, workspaceId, now);
    if id in s.kex.data {
      KexHandledPublishes(cfg, r, key, s, id, sid, now, slow);
    }
  }

  lemma KexHandledPublishes(cfg: Config, r: Relay, key: string, s: Scope, id: string, sid: string, now: int, slow: set<Socket>)
    requires id in s.kex.data
    ensures Publishes(r, KexHandled(cfg, r, key, s, id, sid, now, slow))
            <==> Elsewhere(r, s.kex.data[id]) && NonEmpty(s.runtimeTargetId)
  {
    hide Track, Hand, Delete;
    var o := s.kex.data[id];
    var s' := s.(kex := Delete(s.kex, id), sessions := Track(s.sessions, sid, o.(createdAt := now), cfg.maxSessionOwnerTrack));
    HandPublishes(Log(Put(r, key, s'), KexAnswered(key, id, sid, o, Recipient(r, slow, o))), s', key, slow, o);
  }

  /** The same for a pairing response. */
  lemma PairingResponsePublishesExactly(r: Relay, workspaceId: string, key: string, f: Frame, now: int, slow: set<Socket>)
    requires f.kind.PairingResponse?
    ensures var id := Trim(f.kind.requestId);
            var tracked := PrunePairing(Fetched(r.scopes, key, workspaceId, None, now), now).pairing.data;
            Publishes(r, RoutePairingResponse(r, workspaceId, key, f, now, slow))
            <==> id != "" && id in tracked && Elsewhere(r, tracked[id]) && KeepsTarget(r, key, workspaceId)
  {
    hide Trim, Keep, Hand, Fetched, Elsewhere;
    var s := PrunePairing(Fetched(r.scopes, key, workspaceId, None, now), now);
    var id := Trim(f.kind.requestId);
    TargetSurvivesExactly(r.scopes, key, workspaceId, now);
    if id in s.pairing.data {
      PairingHandledPublishes(r, key, s, id, slow);
    }
  }

  lemma PairingHandledPublishes(r: Relay, key: string, s: Scope, id: string, slow: set<Socket>)
    requires id in s.pairing.data
    ensures Publishes(r, PairingHandled(r, key, s, id, slow)) <==> Elsewhere(r, s.pairing.data[id]) && NonEmpty(s.runtimeTargetId)
  {
    hide Hand, Delete;
    var o := s.pairing.data[id];
    var s' := s.(pairing := Delete(s.pairing, id));
    HandPublishes(Log(Put(r, key, s'), PairingAnswered(key, id, o, Recipient(r, slow, o))), s', key, slow, o);
  }

  /** The same for an end-to-end encrypted or key-update frame, whose session must be bound. */
  lemma SessionFramePublishesExactly(r: Relay, workspaceId: string, key: string, sid: string, now: int, slow: set<Socket>)
    ensures var bound := PruneSessions(Fetched(r.scopes, key, workspaceId, None, now), now).sessions.data;
            Publishes(r, RouteSessionOwned(r, workspaceId, key, sid, now, slow))
            <==> sid in bound && Elsewhere(r, bound[sid]) && KeepsTarget(r, key, workspaceId)
  {
    hide Keep, Hand, Fetched;
    var s := PruneSessions(Fetched(r.scopes, key, workspaceId, None, now), now);
    TargetSurvivesExactly(r.scopes, key, workspaceId, now);
    if sid in s.sessions.data {
      var o := s.sessions.data[sid];
      var to := Recipient(r, slow, o);
      var r' := Put(r, key, s);
      HandPublishes(if to.Some? then Log(r', SessionDelivered(key, sid, to.value)) else r', s, key, slow, o);
    }
  }

  // ----- a run -----

  const CLIENT: Conn := Conn(Client, "w", None, "w", "ip", RuntimeScope, {}, None)

  const ARRIVAL: Event := Connect(1, CLIENT, None, 0)
  const REQUEST: Event := Bus("", "target", "relay-b", true, Frame(KexInit("q"), None, None, 0), true, 0, {})
  const RESPONSE: Event := Bus("", "target", "relay-b", false, Frame(KexResponse("q", "s"), None, None, 0), true, 0, {})

  const OWNER: Owner := Owner(None, Some("relay-b"), 0)

  /** The client is registered, so the bus is polled. */
  lemma AfterArrival(cfg: Config)
    ensures var r := Step(cfg, INITIAL, ARRIVAL);
            "w" in r.scopes && r.scopes["w"].clients == {1} && ":target" !in r.scopes
  {
    hide PruneAll, AdjustIp;
    PruneKeepsClients(NewScope("w", None, 0), 0);
    assert RuntimeScopeKey("w", None) == "w";
  }

  lemma PruneKeepsClients(s: Scope, now: int)
    ensures PruneAll(s, now).clients == s.clients
  {
  }

  lemma AfterRequest(cfg: Config, r: Relay)
    requires ValidConfig(cfg) && ":target" !in r.scopes
    ensures var r' := OnBus(cfg, r, REQUEST);
            && ":target" in r'.scopes && r'.scopes[":target"].runtimeTargetId == Some("target")
            && "q" in r'.scopes[":target"].kex.data && r'.scopes[":target"].kex.data["q"] == OWNER
  {
    hide Trim;
    TrimProper("q");
    assert RuntimeScopeKey("", Some("target")) == ":target";
    var s := PruneAll(NewScope("", Some("target"), 0), 0);
    var r1 := Put(r, ":target", s);
    var r2 := TrackRequest(cfg, r1, ":target", REQUEST.frame, OWNER);
    assert r2.scopes[":target"].daemon.None?;
    assert r2.scopes[":target"].kex == Track(s.kex, "q", OWNER, cfg.maxPairingRequestTrack);
    assert OnBus(cfg, r, REQUEST) == r2;
  }

  lemma KeepsNew(t: Tracker)
    requires "q" in t.data && t.data["q"] == OWNER
    ensures var u := Keep(t, NotExpired(0, REQUEST_TTL_MS)); "q" in u.data && u.data["q"] == OWNER
  {
  }

  /** The relay when the response reaches its handler. */
  function Arrived(r: Relay): Relay
    requires ":target" in r.scopes
  {
    var s := r.scopes[":target"];
    Put(r, ":target", PruneAll(s.(workspaceId := s.workspaceId, lastActivityAt := 0), 0))
  }

  lemma ArrivedLog(r: Relay)
    requires ":target" in r.scopes
    ensures Arrived(r).log == r.log && Elsewhere(Arrived(r), OWNER)
  {
    hide PruneAll;
  }

  lemma TwoLetters()
    ensures Trim("q") == "q" && Trim("s") == "s"
  {
    hide Trim;
    TrimProper("q");
    TrimProper("s");
  }

  lemma ResponseIsRouted(cfg: Config, r: Relay)
    requires ":target" in r.scopes
    ensures OnBus(cfg, r, RESPONSE) == RouteKexResponse(cfg, Arrived(r), "", ":target", RESPONSE.frame, 0, {})
  {
    hide PruneAll, RouteKexResponse;
    assert RuntimeScopeKey("", Some("target")) == ":target";
  }

  lemma StillTracked(r: Relay)
    requires ":target" in r.scopes && r.scopes[":target"].runtimeTargetId == Some("target")
    requires "q" in r.scopes[":target"].kex.data && r.scopes[":target"].kex.data["q"] == OWNER
    ensures KeepsTarget(Arrived(r), ":target", "")
    ensures var tracked := PruneKex(Fetched(Arrived(r).scopes, ":target", "", None, 0), 0).kex.data;
            "q" in tracked && tracked["q"] == OWNER
  {
    hide Keep;
    KeepsNew(r.scopes[":target"].kex);
    KeepsNew(Arrived(r).scopes[":target"].kex);
  }

  lemma ResponsePublishes(cfg: Config, r: Relay)
    requires ":target" in r.scopes && r.scopes[":target"].runtimeTargetId == Some("target")
    requires "q" in r.scopes[":target"].kex.data && r.scopes[":target"].kex.data["q"] == OWNER
    ensures Publishes(r, OnBus(cfg, r, RESPONSE))
  {
    hide Trim, RouteKexResponse, PruneKex, Fetched, KeepsTarget, OnBus, Arrived, IsSpace;
    ArrivedLog(r);
    TwoLetters();
    ResponseIsRouted(cfg, r);
    StillTracked(r);
    KexResponsePublishesExactly(cfg, Arrived(r), "", ":target", RESPONSE.frame, 0, {});
  }

  /** A client of another scope is connected, so the bus is polled; a request and its response arrive, both
      under the empty workspace id, and the response is published back to the relay that forwarded the request. */
  lemma EmptyWorkspacePublishes(cfg: Config) returns (states: seq<Relay>)
    requires ValidConfig(cfg)
    ensures IsRun(cfg, states, [ARRIVAL, REQUEST, RESPONSE])
    ensures "w" in states[1].scopes && states[1].scopes["w"].clients == {1}
    ensures Publishes(states[2], states[3])
  {
    hide OnBus, OnConnect, Publishes;
    var r1 := Step(cfg, INITIAL, ARRIVAL);
    var r2 := Step(cfg, r1, REQUEST);
    var r3 := Step(cfg, r2, RESPONSE);
    states := [INITIAL, r1, r2, r3];
    AfterArrival(cfg);
    AfterRequest(cfg, r1);
    ResponsePublishes(cfg, r2);
  }
}
