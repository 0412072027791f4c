/**
  One relay process as a state machine: its scopes (registry entries), its live connections, which
  sockets are open, the per-address connection counts, and a log of what was tracked, answered and
  delivered. One function per event says what the event does.
*/
module RelaySpec {
  import opened Basics
  import opened OrderedMap
  import opened JsStrings

  /** A socket is its identity; whether it is open is part of the relay state. */
  type Socket = nat

  datatype Profile = NoiseIk | NoiseIkPsk2

  /** The class of a frame, by its `type` field and the shape that field requires. */
  datatype Kind =
    | E2ee(sessionId: string)
    | KexInit(requestId: string)
    | KexResponse(requestId: string, sessionId: string)
    | KeyUpdate(sessionId: string)
    | PairingRequest(requestId: string)
    | PairingResponse(requestId: string)
    | Subscribe(channel: string)
    | Unsubscribe(channel: string)
    | ViewerPresence(channel: string)
    | OtherKind

  /** relayChannel is the channel of a frame that is also a session-event relay frame, by its `schema` field. */
  datatype Frame = Frame(kind: Kind, relayChannel: Option<string>, profile: Option<Profile>, bytes: nat)

  predicate SessionEventClient(f: Frame) {
    f.kind.Subscribe? || f.kind.Unsubscribe? || f.kind.ViewerPresence?
  }

  predicate AllowedClient(f: Frame) {
    f.kind.E2ee? || f.kind.KexInit? || f.kind.PairingRequest? || SessionEventClient(f)
  }

  predicate AllowedDaemon(f: Frame) {
    f.kind.E2ee? || f.kind.KexResponse? || f.kind.KeyUpdate? || f.kind.PairingResponse? || f.relayChannel.Some?
  }

  datatype Owner = Owner(clientWs: Option<Socket>, sourceRelayId: Option<string>, createdAt: int)

  type Tracker = OMap<string, Owner>

  datatype Scope = Scope(
    workspaceId: string, runtimeTargetId: Option<string>,
    daemon: Option<Socket>, generation: Option<nat>,
    clients: set<Socket>, subscribers: map<string, set<Socket>>,
    kex: Tracker, sessions: Tracker, pairing: Tracker, lastActivityAt: int)

  datatype Role = Client | Daemon | Worker

  datatype ClientScope = RuntimeScope | PairingScope | SessionEventsScope

  /** What a connection's handlers capture. */
  datatype Conn = Conn(
    role: Role, workspaceId: string, runtimeTargetId: Option<string>, scopeKey: string, ip: string,
    clientScope: ClientScope, channels: set<string>, profile: Option<Profile>)

  datatype Effect =
    | KexTracked(scope: string, id: string, owner: Owner)
    | PairingTracked(scope: string, id: string, owner: Owner)
    | KexAnswered(scope: string, id: string, sessionId: string, owner: Owner, recipient: Option<Socket>)
    | PairingAnswered(scope: string, id: string, owner: Owner, recipient: Option<Socket>)
    | SessionDelivered(scope: string, sessionId: string, to: Socket)
    | Published(scope: string, relayId: string)
    | Fanned(scope: string, channel: string, group: set<Socket>)
    | ToDaemon(scope: string, to: Socket)
    | NoLocalDaemon(from: Socket)

  datatype Relay = Relay(
    scopes: map<string, Scope>, conns: map<Socket, Conn>, open: set<Socket>, ips: map<string, int>, log: seq<Effect>)

  const INITIAL: Relay := Relay(map[], map[], {}, map[], [])

  datatype Config = Config(maxPairingRequestTrack: nat, maxSessionOwnerTrack: nat, maxFrameBytes: nat)

  predicate ValidConfig(cfg: Config) {
    cfg.maxPairingRequestTrack > 0 && cfg.maxSessionOwnerTrack > 0
  }

  const REQUEST_TTL_MS := 2 * 60000
  const SESSION_OWNER_TTL_MS := 30 * 60000

  // ----- the registry -----

  function NewScope(workspaceId: string, runtimeTargetId: Option<string>, now: int): Scope {
    Scope(workspaceId, runtimeTargetId, None, None, {}, map[], Empty(), Empty(), Empty(), now)
  }

  /** The entry that `getOrCreate` returns; a present entry takes the new metadata unless the workspace id is empty. */
  function Fetched(scopes: map<string, Scope>, key: string, workspaceId: string, runtimeTargetId: Option<string>, now: int): Scope {
    if key !in scopes then NewScope(workspaceId, runtimeTargetId, now)
    else if workspaceId != "" then scopes[key].(workspaceId := workspaceId, runtimeTargetId := runtimeTargetId)
    else scopes[key]
  }

  /** The entry that `getOrCreate` returns without metadata, as when a client asks to be upgraded. */
  function Looked(scopes: map<string, Scope>, key: string, now: int): Scope {
    if key in scopes then scopes[key] else NewScope(key, None, now)
  }

  predicate Idle(s: Scope, ttlMs: int, now: int) {
    s.daemon.None? && s.clients == {} && now - s.lastActivityAt >= ttlMs
  }

  function WithoutIdle(scopes: map<string, Scope>, ttlMs: int, now: int): map<string, Scope> {
    map k | k in scopes && !Idle(scopes[k], ttlMs, now) :: scopes[k]
  }

  function NotOwnedBy(ws: Socket): Owner -> bool {
    (o: Owner) => o.clientWs != Some(ws)
  }

  function WithoutSubscriber(subscribers: map<string, set<Socket>>, ws: Socket): map<string, set<Socket>> {
    map ch | ch in subscribers && subscribers[ch] - {ws} != {} :: subscribers[ch] - {ws}
  }

  function RemoveClient(s: Scope, ws: Socket, now: int): Scope {
    s.(clients := s.clients - {ws},
       pairing := Keep(s.pairing, NotOwnedBy(ws)),
       kex := Keep(s.kex, NotOwnedBy(ws)),
       sessions := Keep(s.sessions, NotOwnedBy(ws)),
       subscribers := WithoutSubscriber(s.subscribers, ws),
       lastActivityAt := now)
  }

  function ClearDaemon(s: Scope, ws: Socket, now: int): Scope {
    if s.daemon == Some(ws) then
      s.(daemon := None, kex := Empty(), sessions := Empty(), pairing := Empty(), lastActivityAt := now)
    else s.(lastActivityAt := now)
  }

  function AdjustIp(ips: map<string, int>, ip: string, delta: int): map<string, int> {
    var next := (if ip in ips then ips[ip] else 0) + delta;
    if next <= 0 then ips - {ip} else ips[ip := next]
  }

  // ----- trackers -----

  function NotExpired(now: int, ttlMs: int): Owner -> bool {
    (o: Owner) => now - o.createdAt <= ttlMs
  }

  function PruneKex(s: Scope, now: int): Scope { s.(kex := Keep(s.kex, NotExpired(now, REQUEST_TTL_MS))) }

  function PrunePairing(s: Scope, now: int): Scope { s.(pairing := Keep(s.pairing, NotExpired(now, REQUEST_TTL_MS))) }

  function PruneSessions(s: Scope, now: int): Scope { s.(sessions := Keep(s.sessions, NotExpired(now, SESSION_OWNER_TTL_MS))) }

  function PruneAll(s: Scope, now: int): Scope {
    PruneSessions(PruneKex(PrunePairing(s, now), now), now)
  }

  /** Evict until there is room below max, then `Map.set`; it evicts even when the id is already there. */
  function Track(t: Tracker, id: string, owner: Owner, max: nat): Tracker {
    Set(EvictTo(t, if max > 0 then max - 1 else 0), id, owner)
  }

  // ----- sending -----

  predicate Sendable(r: Relay, slow: set<Socket>, to: Socket) {
    to in r.open && to !in slow
  }

  /** `safeSend` to an open socket whose buffer is over the limit closes it instead. */
  function AfterSend(r: Relay, slow: set<Socket>, to: Socket): Relay {
    if to in r.open && to in slow then CloseSocket(r, to) else r
  }

  function CloseSocket(r: Relay, ws: Socket): Relay { r.(open := r.open - {ws}) }

  function Put(r: Relay, key: string, s: Scope): Relay { r.(scopes := r.scopes[key := s]) }

  function Log(r: Relay, e: Effect): Relay { r.(log := r.log + [e]) }

  predicate LocalOpen(r: Relay, o: Owner) {
    o.clientWs.Some? && o.clientWs.value in r.open
  }

  predicate NonEmpty(s: Option<string>) { s.Some? && s.value != "" }

  /** Hand a response to its owner: locally, or over the bus when the owner and the target are known, or not at all. */
  function Hand(r: Relay, s: Scope, key: string, slow: set<Socket>, o: Owner): Relay {
    if LocalOpen(r, o) then AfterSend(r, slow, o.clientWs.value)
    else if NonEmpty(o.sourceRelayId) && NonEmpty(s.runtimeTargetId) then Log(r, Published(key, o.sourceRelayId.value))
    else r
  }

  function Recipient(r: Relay, slow: set<Socket>, o: Owner): Option<Socket> {
    if LocalOpen(r, o) && o.clientWs.value !in slow then o.clientWs else None
  }

  // ----- responses from a daemon -----

  function RouteKexResponse(cfg: Config, r: Relay, workspaceId: string, key: string, f: Frame, now: int, slow: set<Socket>): Relay
    requires f.kind.KexResponse?
  {
    var id := Trim(f.kind.requestId);
    var sid := Trim(f.kind.sessionId);
    if id == "" || sid == "" then r
    else
      var s := PruneKex(Fetched(r.scopes, key, workspaceId, None, now), now);
      if id !in s.kex.data then Put(r, key, s) else KexHandled(cfg, r, key, s, id, sid, now, slow)
  }

  function KexHandled(cfg: Config, r: Relay, key: string, s: Scope, id: string, sid: string, now: int, slow: set<Socket>): Relay
    requires id in s.kex.data
  {
    var o := s.kex.data[id];
    var s' := s.(kex := Delete(s.kex, id), sessions := Track(s.sessions, sid, o.(createdAt := now), cfg.maxSessionOwnerTrack));
    var r' := Log(Put(r, key, s'), KexAnswered(key, id, sid, o, Recipient(r, slow, o)));
    Hand(r', s', key, slow, o)
  }

  lemma KexHandledAfterPut(cfg: Config, r: Relay, key: string, s: Scope, id: string, sid: string, now: int, slow: set<Socket>)
    requires id in s.kex.data
    ensures KexHandled(cfg, Put(r, key, s), key, s, id, sid, now, slow) == KexHandled(cfg, r, key, s, id, sid, now, slow)
  {
    hide Track;
    var s' := s.(kex := Delete(s.kex, id), sessions := Track(s.sessions, sid, s.kex.data[id].(createdAt := now), cfg.maxSessionOwnerTrack));
    assert r.scopes[key := s][key := s'] == r.scopes[key := s'];
  }

  function RoutePairingResponse(r: Relay, workspaceId: string, key: string, f: Frame, now: int, slow: set<Socket>): Relay
    requires f.kind.PairingResponse?
  {
    var s := PrunePairing(Fetched(r.scopes, key, workspaceId, None, now), now);
    var id := Trim(f.kind.requestId);
    if id == "" || id !in s.pairing.data then Put(r, key, s) else PairingHandled(r, key, s, id, slow)
  }

  function PairingHandled(r: Relay, key: string, s: Scope, id: string, slow: set<Socket>): Relay
    requires id in s.pairing.data
  {
    var o := s.pairing.data[id];
    var s' := s.(pairing := Delete(s.pairing, id));
    var r' := Log(Put(r, key, s'), PairingAnswered(key, id, o, Recipient(r, slow, o)));
    Hand(r', s', key, slow, o)
  }

  lemma PairingHandledAfterPut(r: Relay, key: string, s: Scope, id: string, slow: set<Socket>)
    requires id in s.pairing.data
    ensures PairingHandled(Put(r, key, s), key, s, id, slow) == PairingHandled(r, key, s, id, slow)
  {
    var s' := s.(pairing := Delete(s.pairing, id));
    assert r.scopes[key := s][key := s'] == r.scopes[key := s'];
  }

  /** The session id is looked up as sent, while a key-exchange response binds the trimmed one. */
  function RouteSessionOwned(r: Relay, workspaceId: string, key: string, sid: string, now: int, slow: set<Socket>): Relay {
    var s := PruneSessions(Fetched(r.scopes, key, workspaceId, None, now), now);
    var r' := Put(r, key, s);
    if sid !in s.sessions.data then r'
    else
      var o := s.sessions.data[sid];
      var to := Recipient(r, slow, o);
      Hand(if to.Some? then Log(r', SessionDelivered(key, sid, to.value)) else r', s, key, slow, o)
  }

  /** Send to every member of a group: open ones receive, except the slow ones, which are closed. */
  function Fan(r: Relay, key: string, channel: string, group: set<Socket>, slow: set<Socket>): Relay {
    Log(r.(open := r.open - (group * slow)), Fanned(key, channel, (group * r.open) - slow))
  }

  function Subscribers(s: Scope, channel: string): set<Socket> {
    if channel in s.subscribers then s.subscribers[channel] else {}
  }

  function RouteSessionEvent(r: Relay, workspaceId: string, key: string, rawChannel: string, now: int, slow: set<Socket>): Relay {
    var channel := Trim(rawChannel);
    if channel == "" then r
    else
      var s := Fetched(r.scopes, key, workspaceId, None, now);
      Fan(Put(r, key, s), key, channel, Subscribers(s, channel), slow)
  }

  // ----- events -----

  datatype Event =
    | Connect(ws: Socket, conn: Conn, generation: Option<nat>, now: int)
    | Message(ws: Socket, frame: Frame, allowed: bool, now: int, slow: set<Socket>)
    | Bus(workspaceId: string, runtimeTargetId: string, sourceRelayId: string, fromClient: bool, frame: Frame,
          allowed: bool, now: int, slow: set<Socket>)
    | LeaveOpen(ws: Socket)
    | Closed(ws: Socket, now: int)
    | Prune(ttlMs: int, now: int)
    | Upgrade(key: string, now: int)

  function RuntimeScopeKey(workspaceId: string, runtimeTargetId: Option<string>): string {
    if NonEmpty(runtimeTargetId) then workspaceId + ":" + runtimeTargetId.value else workspaceId
  }

  /** A connecting socket is new and its captured scope key is the one the relay computes; messages
      and closes come from live connections. */
  predicate Enabled(r: Relay, e: Event) {
    match e
    case Connect(ws, conn, _, _) =>
      ws !in r.conns && ws !in r.open && conn.scopeKey == RuntimeScopeKey(conn.workspaceId, conn.runtimeTargetId)
    case Message(ws, _, _, _, _) => ws in r.conns && !r.conns[ws].role.Worker?
    case Closed(ws, _) => ws in r.conns
    case _ => true
  }

  /** Register handlers for an accepted socket and count it. */
  function Admit(r: Relay, ws: Socket, conn: Conn): Relay {
    r.(conns := r.conns[ws := conn], open := r.open + {ws}, ips := AdjustIp(r.ips, conn.ip, 1))
  }

  function OnConnect(r: Relay, ws: Socket, conn: Conn, generation: Option<nat>, now: int): Relay {
    var s := PruneAll(Fetched(r.scopes, conn.scopeKey, conn.workspaceId, conn.runtimeTargetId, now).(lastActivityAt := now), now);
    var r1 := Put(r, conn.scopeKey, s);
    match conn.role
    case Worker => Admit(r1, ws, conn)
    case Client => Admit(Put(r1, conn.scopeKey, s.(clients := s.clients + {ws})), ws, conn)
    case Daemon =>
      if generation.Some? && s.generation.Some? && generation.value < s.generation.value then r1
      else if s.daemon.Some? && s.daemon.value in r.open then r1
      else
        Admit(Put(r1, conn.scopeKey, s.(daemon := Some(ws), generation := if generation.Some? then generation else s.generation,
                                        kex := Empty(), sessions := Empty())), ws, conn)
  }

  function Strength(p: Profile): nat { if p.NoiseIkPsk2? then 2 else 1 }

  function OnDaemonMessage(cfg: Config, r: Relay, ws: Socket, conn: Conn, f: Frame, allowed: bool, now: int, slow: set<Socket>): Relay {
    if !allowed || f.bytes > cfg.maxFrameBytes then CloseSocket(r, ws)
    else if !AllowedDaemon(f) then r
    else if conn.profile.Some? && f.profile.Some? && Strength(f.profile.value) < Strength(conn.profile.value) then CloseSocket(r, ws)
    else match f.kind
      case PairingResponse(_) => RoutePairingResponse(r, conn.workspaceId, conn.scopeKey, f, now, slow)
      case KexResponse(_, _) => RouteKexResponse(cfg, r, conn.workspaceId, conn.scopeKey, f, now, slow)
      case E2ee(sid) => RouteSessionOwned(r, conn.workspaceId, conn.scopeKey, sid, now, slow)
      case KeyUpdate(sid) => RouteSessionOwned(r, conn.workspaceId, conn.scopeKey, sid, now, slow)
      case _ => r
  }

  function OnSessionEventFrame(r: Relay, ws: Socket, conn: Conn, f: Frame, allowed: bool, now: int, slow: set<Socket>): Relay
    requires SessionEventClient(f)
  {
    var channel := Trim(f.kind.channel);
    if channel == "" || channel !in conn.channels then AfterSend(r, slow, ws)
    else if f.kind.ViewerPresence? && !allowed then CloseSocket(r, ws)
    else
      var s := Fetched(r.scopes, conn.scopeKey, conn.workspaceId, None, now);
      match f.kind
      case Subscribe(_) =>
        AfterSend(Put(r, conn.scopeKey, s.(subscribers := s.subscribers[channel := Subscribers(s, channel) + {ws}])), slow, ws)
      case Unsubscribe(_) =>
        var rest := Subscribers(s, channel) - {ws};
        AfterSend(Put(r, conn.scopeKey, s.(subscribers := if rest == {} then s.subscribers - {channel} else s.subscribers[channel := rest])), slow, ws)
      case _ => Fan(Put(r, conn.scopeKey, s), conn.scopeKey, channel, Subscribers(s, channel) - {ws}, slow)
  }

  /** Pass a frame on to the scope's open daemon. */
  function ToScopeDaemon(r: Relay, key: string, slow: set<Socket>): Relay
    requires key in r.scopes && r.scopes[key].daemon.Some?
  {
    var d := r.scopes[key].daemon.value;
    AfterSend(if Sendable(r, slow, d) then Log(r, ToDaemon(key, d)) else r, slow, d)
  }

  predicate HasOpenDaemon(r: Relay, key: string) {
    key in r.scopes && r.scopes[key].daemon.Some? && r.scopes[key].daemon.value in r.open
  }

  /** Does the frame of a runtime or pairing client pass the gates that precede tracking? */
  predicate PassesGates(conn: Conn, f: Frame, allowed: bool) {
    && (conn.clientScope.PairingScope? ==> f.kind.PairingRequest?)
    && (conn.clientScope.RuntimeScope? ==> !f.kind.PairingRequest?)
    && (conn.profile.Some? && f.profile.Some? ==> conn.profile == f.profile)
    && allowed
  }

  /** Remember who asked, so that the response finds its way back. */
  function TrackRequest(cfg: Config, r: Relay, key: string, f: Frame, o: Owner): Relay
    requires key in r.scopes
  {
    var s := r.scopes[key];
    match f.kind
    case KexInit(raw) =>
      var id := Trim(raw);
      if id == "" then r
      else Log(Put(r, key, s.(kex := Track(s.kex, id, o, cfg.maxPairingRequestTrack))), KexTracked(key, id, o))
    case PairingRequest(raw) =>
      var id := Trim(raw);
      if id == "" then r
      else Log(Put(r, key, s.(pairing := Track(s.pairing, id, o, cfg.maxPairingRequestTrack))), PairingTracked(key, id, o))
    case _ => r
  }

  /** The handler works on the scope it captured at connect time, which is the registered one. */
  function OnClientMessage(cfg: Config, r: Relay, ws: Socket, conn: Conn, f: Frame, allowed: bool, now: int, slow: set<Socket>): Relay
    requires conn.scopeKey in r.scopes
  {
    if f.bytes > cfg.maxFrameBytes then CloseSocket(r, ws)
    else if !AllowedClient(f) then AfterSend(r, slow, ws)
    else if conn.clientScope.SessionEventsScope? then
      if SessionEventClient(f) then OnSessionEventFrame(r, ws, conn, f, allowed, now, slow) else AfterSend(r, slow, ws)
    else if SessionEventClient(f) then CloseSocket(r, ws)
    else
      var r1 := Put(r, conn.scopeKey, PruneAll(r.scopes[conn.scopeKey], now));
      if !PassesGates(conn, f, allowed) then CloseSocket(r1, ws)
      else
        var r2 := TrackRequest(cfg, r1, conn.scopeKey, f, Owner(Some(ws), None, now));
        if HasOpenDaemon(r2, conn.scopeKey) then ToScopeDaemon(r2, conn.scopeKey, slow) else Log(r2, NoLocalDaemon(ws))
  }

  function OnBus(cfg: Config, r: Relay, e: Event): Relay
    requires e.Bus?
  {
    if e.runtimeTargetId == "" then r
    else
      var key := RuntimeScopeKey(e.workspaceId, Some(e.runtimeTargetId));
      var s := PruneAll(Fetched(r.scopes, key, e.workspaceId, Some(e.runtimeTargetId), e.now).(lastActivityAt := e.now), e.now);
      var r1 := Put(r, key, s);
      if e.fromClient then
        if !AllowedClient(e.frame) then r1
        else
          var r2 := TrackRequest(cfg, r1, key, e.frame, Owner(None, Some(e.sourceRelayId), e.now));
          if HasOpenDaemon(r2, key) then ToScopeDaemon(r2, key, e.slow) else r2
      else if !AllowedDaemon(e.frame) || !e.allowed then r1
      else OnDaemonBusFrame(cfg, r1, e, key)
  }

  function OnDaemonBusFrame(cfg: Config, r: Relay, e: Event, key: string): Relay
    requires e.Bus?
  {
    match e.frame.kind
    case KexResponse(_, _) => RouteKexResponse(cfg, r, e.workspaceId, key, e.frame, e.now, e.slow)
    case PairingResponse(_) => RoutePairingResponse(r, e.workspaceId, key, e.frame, e.now, e.slow)
    case _ =>
      if e.frame.relayChannel.Some? then RouteSessionEvent(r, e.workspaceId, key, e.frame.relayChannel.value, e.now, e.slow)
      else match e.frame.kind
        case E2ee(sid) => RouteSessionOwned(r, e.workspaceId, key, sid, e.now, e.slow)
        case KeyUpdate(sid) => RouteSessionOwned(r, e.workspaceId, key, sid, e.now, e.slow)
        case _ => r
  }

  function OnClosed(r: Relay, ws: Socket, now: int): Relay
    requires ws in r.conns
  {
    var conn := r.conns[ws];
    var r1 := r.(conns := r.conns - {ws}, open := r.open - {ws}, ips := AdjustIp(r.ips, conn.ip, -1));
    if conn.role.Worker? || conn.scopeKey !in r.scopes then r1
    else Put(r1, conn.scopeKey, if conn.role.Client? then RemoveClient(r.scopes[conn.scopeKey], ws, now)
                                else ClearDaemon(r.scopes[conn.scopeKey], ws, now))
  }

  /** What an event does; one that is not enabled does nothing. */
  function Step(cfg: Config, r: Relay, e: Event): Relay {
    if !Enabled(r, e) then r
    else match e
      case Connect(ws, conn, generation, now) => OnConnect(r, ws, conn, generation, now)
      case Message(ws, f, allowed, now, slow) =>
        if r.conns[ws].role.Daemon? then OnDaemonMessage(cfg, r, ws, r.conns[ws], f, allowed, now, slow)
        else if r.conns[ws].scopeKey in r.scopes then OnClientMessage(cfg, r, ws, r.conns[ws], f, allowed, now, slow)
        else r
      case Bus(_, _, _, _, _, _, _, _) => OnBus(cfg, r, e)
      case LeaveOpen(ws) => CloseSocket(r, ws)
      case Closed(ws, now) => OnClosed(r, ws, now)
      case Prune(ttlMs, now) => r.(scopes := WithoutIdle(r.scopes, ttlMs, now))
      case Upgrade(key, now) => Put(r, key, Looked(r.scopes, key, now))
  }

  /** The states a run goes through. */
  ghost predicate IsRun(cfg: Config, states: seq<Relay>, events: seq<Event>) {
    && |states| == |events| + 1
    && states[0] == INITIAL
    && forall i :: 0 <= i < |events| ==> states[i + 1] == Step(cfg, states[i], events[i])
  }
}
