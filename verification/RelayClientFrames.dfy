/** What becomes of every frame that a client sends, by websocket or over the bus. */
module RelayClientFrames {
  import opened Basics
  import opened OrderedMap
  import opened JsStrings
  import opened RelaySpec
  import opened RelayProofs
  import opened RelayDelivery

  /** What the log says when the frame asks something of the daemon. */
  function Asking(key: string, kind: Kind, o: Owner): seq<Effect> {
    match kind
    case KexInit(raw) => if Trim(raw) == "" then [] else [KexTracked(key, Trim(raw), o)]
    case PairingRequest(raw) => if Trim(raw) == "" then [] else [PairingTracked(key, Trim(raw), o)]
    case _ => []
  }

  /** The open daemon of the scope. */
  function OpenDaemon(r: Relay, key: string): Option<Socket> {
    if key in r.scopes && r.scopes[key].daemon.Some? && r.scopes[key].daemon.value in r.open then r.scopes[key].daemon else None
  }

  /** Sending to an open socket: a slow one gets nothing and is closed. */
  function Sent(key: string, to: Socket, slow: set<Socket>): seq<Effect> {
    if to in slow then [] else [ToDaemon(key, to)]
  }

  /** The frame has one of the shapes that a client may send. */
  predicate ClientShape(k: Kind) {
    match k
    case E2ee(_) => true
    case KexInit(_) => true
    case PairingRequest(_) => true
    case Subscribe(_) => true
    case Unsubscribe(_) => true
    case ViewerPresence(_) => true
    case _ => false
  }

  /** A frame of a runtime or pairing client that is within the size limit, of the kind this client may send,
      of its profile, and within its rate limits. */
  predicate Admitted(cfg: Config, conn: Conn, e: Event)
    requires e.Message?
  {
    && e.allowed && e.frame.bytes <= cfg.maxFrameBytes
    && (conn.profile.None? || e.frame.profile.None? || conn.profile.value == e.frame.profile.value)
    && match e.frame.kind {
         case E2ee(_) => conn.clientScope.RuntimeScope?
         case KexInit(_) => conn.clientScope.RuntimeScope?
         case PairingRequest(_) => conn.clientScope.PairingScope?
         case _ => false
       }
  }

  lemma TrackLogs(cfg: Config, r: Relay, key: string, f: Frame, o: Owner)
    requires key in r.scopes
    ensures var t := TrackRequest(cfg, r, key, f, o);
            && t.log == r.log + Asking(key, f.kind, o) && t.open == r.open && t.conns == r.conns
            && key in t.scopes && t.scopes[key].daemon == r.scopes[key].daemon
  {
    hide Track, Trim;
  }

  lemma HandedOn(r: Relay, key: string, slow: set<Socket>)
    requires key in r.scopes && OpenDaemon(r, key).Some?
    ensures var d := OpenDaemon(r, key).value; var t := ToScopeDaemon(r, key, slow);
            && t.log == r.log + Sent(key, d, slow)
            && t.open == r.open - if d in slow then {d} else {}
  {
  }

  /** One step: an admitted frame is tracked, if it asks, and goes to the scope's daemon if that is open and
      not slow; that there is no open one is noted. Any other frame leaves no trace, and closes the client's
      socket unless it only has an unknown shape. */
  lemma ClientStep(cfg: Config, r: Relay, e: Event)
    requires e.Message? && Enabled(r, e) && r.conns[e.ws].role.Client? && r.conns[e.ws].scopeKey in r.scopes
    requires !r.conns[e.ws].clientScope.SessionEventsScope?
    ensures var key := r.conns[e.ws].scopeKey; var t := Step(cfg, r, e); var d := OpenDaemon(r, key);
            if Admitted(cfg, r.conns[e.ws], e) then
              && t.log == r.log + Asking(key, e.frame.kind, Owner(Some(e.ws), None, e.now))
                          + (if d.Some? then Sent(key, d.value, e.slow) else [NoLocalDaemon(e.ws)])
              && t.open == r.open - if d.Some? && d.value in e.slow then {d.value} else {}
            else
              && t.log == r.log
              && t.open == r.open - if e.frame.bytes <= cfg.maxFrameBytes && !ClientShape(e.frame.kind) && e.ws !in e.slow then {} else {e.ws}
  {
    hide Trim, PruneAll, TrackRequest, ToScopeDaemon, OnSessionEventFrame, Asking;
    var key := r.conns[e.ws].scopeKey;
    var r1 := Put(r, key, PruneAll(r.scopes[key], e.now));
    var o := Owner(Some(e.ws), None, e.now);
    PruneKeepsDaemon(r.scopes[key], e.now);
    TrackLogs(cfg, r1, key, e.frame, o);
    var r2 := TrackRequest(cfg, r1, key, e.frame, o);
    if OpenDaemon(r, key).Some? {
      HandedOn(r2, key, e.slow);
    }
  }

  /** A client for session events can send nothing else: no daemon receives it, and no scope changes. */
  lemma SessionEventsOnly(cfg: Config, r: Relay, e: Event)
    requires e.Message? && Enabled(r, e) && r.conns[e.ws].role.Client? && r.conns[e.ws].clientScope.SessionEventsScope?
    requires !e.frame.kind.Subscribe? && !e.frame.kind.Unsubscribe? && !e.frame.kind.ViewerPresence?
    ensures var t := Step(cfg, r, e); t.log == r.log && t.scopes == r.scopes && t.conns == r.conns
  {
  }

  /** In every run, that is what becomes of every frame of a runtime or pairing client. */
  lemma ClientFrameExactly(cfg: Config, states: seq<Relay>, events: seq<Event>, n: nat)
    requires ValidConfig(cfg) && |states| == |events| + 1 && IsRun(cfg, states, events) && n < |events|
    requires events[n].Message? && events[n].ws in states[n].conns && states[n].conns[events[n].ws].role.Client?
    requires !states[n].conns[events[n].ws].clientScope.SessionEventsScope?
    ensures var r, e, t := states[n], events[n], states[n + 1];
            var key := r.conns[e.ws].scopeKey; var d := OpenDaemon(r, key);
            if Admitted(cfg, r.conns[e.ws], e) then
              && t.log == r.log + Asking(key, e.frame.kind, Owner(Some(e.ws), None, e.now))
                          + (if d.Some? then Sent(key, d.value, e.slow) else [NoLocalDaemon(e.ws)])
              && t.open == r.open - if d.Some? && d.value in e.slow then {d.value} else {}
            else
              && t.log == r.log
              && t.open == r.open - if e.frame.bytes <= cfg.maxFrameBytes && !ClientShape(e.frame.kind) && e.ws !in e.slow then {} else {e.ws}
  {
    hide Step, Inv, Admitted, Asking, OpenDaemon, ClientShape;
    EveryRunKeeps(cfg, states, events, n);
    InvClient(cfg, states[n], events[n].ws);
    ClientStep(cfg, states[n], events[n]);
  }

  /** A client's frame that arrives over the bus for a named target is tracked for the relay it came from, if it
      asks, and goes to the daemon of that scope exactly if it is open and not slow; nothing else happens. */
  lemma BusClientFrameExactly(cfg: Config, r: Relay, e: Event)
    requires e.Bus? && e.fromClient
    ensures var key := e.workspaceId + ":" + e.runtimeTargetId; var t := Step(cfg, r, e); var d := OpenDaemon(r, key);
            if e.runtimeTargetId != "" && ClientShape(e.frame.kind) then
              && t.log == r.log + Asking(key, e.frame.kind, Owner(None, Some(e.sourceRelayId), e.now))
                          + (if d.Some? then Sent(key, d.value, e.slow) else [])
              && t.open == r.open - if d.Some? && d.value in e.slow then {d.value} else {}
            else t.log == r.log && t.open == r.open
  {
    hide Trim, Keep, TrackRequest, ToScopeDaemon, Asking;
    if e.runtimeTargetId != "" {
      var key := e.workspaceId + ":" + e.runtimeTargetId;
      assert RuntimeScopeKey(e.workspaceId, Some(e.runtimeTargetId)) == key;
      var s := PruneAll(Fetched(r.scopes, key, e.workspaceId, Some(e.runtimeTargetId), e.now).(lastActivityAt := e.now), e.now);
      var r1 := Put(r, key, s);
      var o := Owner(None, Some(e.sourceRelayId), e.now);
      TrackLogs(cfg, r1, key, e.frame, o);
      var r2 := TrackRequest(cfg, r1, key, e.frame, o);
      if OpenDaemon(r, key).Some? {
        HandedOn(r2, key, e.slow);
      }
    }
  }

  /** Nothing but the trackers of the scope differs. */
  ghost predicate OnlyTrackers(r: Relay, t: Relay, key: string)
    requires key in r.scopes
  {
    && t.conns == r.conns && t.scopes.Keys == r.scopes.Keys && (forall k :: k in r.scopes && k != key ==> t.scopes[k] == r.scopes[k])
    && t.scopes[key] == r.scopes[key].(kex := t.scopes[key].kex, pairing := t.scopes[key].pairing)
  }

  lemma PutTrackers(r: Relay, key: string, s: Scope, x: Effect)
    requires key in r.scopes && s == r.scopes[key].(kex := s.kex, pairing := s.pairing)
    ensures OnlyTrackers(r, Log(Put(r, key, s), x), key)
  {
  }

  lemma TrackLeaves(cfg: Config, r: Relay, key: string, f: Frame, o: Owner)
    requires key in r.scopes
    ensures OnlyTrackers(r, TrackRequest(cfg, r, key, f, o), key)
  {
    hide Track, Trim, Put, Log;
    var s := r.scopes[key];
    assert OnlyTrackers(r, r, key);
    match f.kind {
      case KexInit(raw) => PutTrackers(r, key, s.(kex := Track(s.kex, Trim(raw), o, cfg.maxPairingRequestTrack)), KexTracked(key, Trim(raw), o));
      case PairingRequest(raw) => PutTrackers(r, key, s.(pairing := Track(s.pairing, Trim(raw), o, cfg.maxPairingRequestTrack)), PairingTracked(key, Trim(raw), o));
      case _ =>
    }
  }

  lemma PassedOnLeaves(r: Relay, key: string, slow: set<Socket>)
    requires key in r.scopes && r.scopes[key].daemon.Some?
    ensures ToScopeDaemon(r, key, slow).scopes == r.scopes && ToScopeDaemon(r, key, slow).conns == r.conns
  {
  }

  lemma FetchedAt(scopes: map<string, Scope>, key: string, workspaceId: string, runtimeTargetId: string, now: int)
    ensures var s := PruneAll(Fetched(scopes, key, workspaceId, Some(runtimeTargetId), now).(lastActivityAt := now), now);
            && s.lastActivityAt == now
            && (workspaceId != "" ==> s.workspaceId == workspaceId && s.runtimeTargetId == Some(runtimeTargetId))
  {
    hide Keep;
  }

  /** Every client frame from the bus for a named target makes the scope active now, under that target. */
  lemma BusTouches(cfg: Config, r: Relay, e: Event)
    requires e.Bus? && e.fromClient && e.runtimeTargetId != ""
    ensures var t, key := Step(cfg, r, e), e.workspaceId + ":" + e.runtimeTargetId;
            && key in t.scopes && t.scopes[key].lastActivityAt == e.now && t.conns == r.conns
            && (e.workspaceId != "" ==> t.scopes[key].workspaceId == e.workspaceId && t.scopes[key].runtimeTargetId == Some(e.runtimeTargetId))
            && forall k :: k != key ==> (k in t.scopes <==> k in r.scopes) && (k in r.scopes ==> t.scopes[k] == r.scopes[k])
  {
    hide PruneAll, Fetched, TrackRequest, ToScopeDaemon;
    var key := e.workspaceId + ":" + e.runtimeTargetId;
    assert RuntimeScopeKey(e.workspaceId, Some(e.runtimeTargetId)) == key;
    var s := PruneAll(Fetched(r.scopes, key, e.workspaceId, Some(e.runtimeTargetId), e.now).(lastActivityAt := e.now), e.now);
    FetchedAt(r.scopes, key, e.workspaceId, e.runtimeTargetId, e.now);
    var r1, o := Put(r, key, s), Owner(None, Some(e.sourceRelayId), e.now);
    TrackLeaves(cfg, r1, key, e.frame, o);
    var r2 := TrackRequest(cfg, r1, key, e.frame, o);
    if HasOpenDaemon(r2, key) {
      PassedOnLeaves(r2, key, e.slow);
    }
  }
}
