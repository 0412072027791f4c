/** Consequences of the relay invariant that span a whole run. */
module RelayTheorems {
  import opened Basics
  import opened OrderedMap
  import opened JsStrings
  import opened RelaySpec
  import opened RelayProofs

  // ----- daemons -----

  /** At most one daemon socket of a scope key is open at any time. */
  lemma OneOpenDaemon(cfg: Config, states: seq<Relay>, events: seq<Event>, n: nat, a: Socket, b: Socket)
    requires ValidConfig(cfg) && IsRun(cfg, states, events) && n <= |events|
    requires a in states[n].open && a in states[n].conns && states[n].conns[a].role.Daemon?
    requires b in states[n].open && b in states[n].conns && states[n].conns[b].role.Daemon?
    requires states[n].conns[a].scopeKey == states[n].conns[b].scopeKey
    ensures a == b
  {
    EveryRunKeeps(cfg, states, events, n);
  }

  predicate GenerationLe(a: Option<nat>, b: Option<nat>) {
    a.Some? ==> b.Some? && a.value <= b.value
  }

  /** A scope that a step leaves registered keeps or raises its issue generation. */
  ghost predicate GenerationsGrow(a: map<string, Scope>, b: map<string, Scope>) {
    forall key :: key in a && key in b ==> GenerationLe(a[key].generation, b[key].generation)
  }

  lemma SendingKeepsScopes(r: Relay, s: Scope, key: string, slow: set<Socket>, o: Owner, to: Socket, e: Effect)
    ensures Hand(r, s, key, slow, o).scopes == r.scopes && AfterSend(r, slow, to).scopes == r.scopes
    ensures Log(r, e).scopes == r.scopes && CloseSocket(r, to).scopes == r.scopes
  {
  }

  lemma PutGeneration(r: Relay, key: string, s: Scope)
    requires key in r.scopes ==> GenerationLe(r.scopes[key].generation, s.generation)
    ensures GenerationsGrow(r.scopes, Put(r, key, s).scopes)
  {
  }

  lemma RouteKexGeneration(cfg: Config, r: Relay, workspaceId: string, key: string, f: Frame, now: int, slow: set<Socket>)
    requires f.kind.KexResponse?
    ensures GenerationsGrow(r.scopes, RouteKexResponse(cfg, r, workspaceId, key, f, now, slow).scopes)
  {
    hide Keep, Track, Delete, Trim, Hand, Put, GenerationsGrow, Recipient;
    var id, sid := Trim(f.kind.requestId), Trim(f.kind.sessionId);
    var s := PruneKex(Fetched(r.scopes, key, workspaceId, None, now), now);
    PutGeneration(r, key, s);
    if id != "" && sid != "" && id in s.kex.data {
      var o := s.kex.data[id];
      var s' := AnsweredKex(s, id, sid, o.(createdAt := now), cfg.maxSessionOwnerTrack);
      PutGeneration(r, key, s');
      var e := KexAnswered(key, id, sid, o, Recipient(r, slow, o));
      SendingKeepsScopes(Log(Put(r, key, s'), e), s', key, slow, o, 0, e);
    } else {
      PutGeneration(r, key, if key in r.scopes then r.scopes[key] else s);
      SameScopesGrow(r.scopes);
    }
  }

  lemma SameScopesGrow(scopes: map<string, Scope>)
    ensures GenerationsGrow(scopes, scopes)
  {
  }

  lemma RoutePairingGeneration(r: Relay, workspaceId: string, key: string, f: Frame, now: int, slow: set<Socket>)
    requires f.kind.PairingResponse?
    ensures GenerationsGrow(r.scopes, RoutePairingResponse(r, workspaceId, key, f, now, slow).scopes)
  {
    hide Keep, Track, Delete, Trim, Hand, Put, GenerationsGrow, Recipient;
    var s := PrunePairing(Fetched(r.scopes, key, workspaceId, None, now), now);
    var id := Trim(f.kind.requestId);
    PutGeneration(r, key, s);
    if id != "" && id in s.pairing.data {
      var o := s.pairing.data[id];
      var s' := s.(pairing := Delete(s.pairing, id));
      PutGeneration(r, key, s');
      var e := PairingAnswered(key, id, o, Recipient(r, slow, o));
      SendingKeepsScopes(Log(Put(r, key, s'), e), s', key, slow, o, 0, e);
    }
  }

  lemma RouteSessionGeneration(r: Relay, workspaceId: string, key: string, sid: string, now: int, slow: set<Socket>)
    ensures GenerationsGrow(r.scopes, RouteSessionOwned(r, workspaceId, key, sid, now, slow).scopes)
    ensures GenerationsGrow(r.scopes, RouteSessionEvent(r, workspaceId, key, sid, now, slow).scopes)
  {
    hide Keep, Trim, Hand, Put, GenerationsGrow, Recipient;
    var t := Fetched(r.scopes, key, workspaceId, None, now);
    var s := PruneSessions(t, now);
    PutGeneration(r, key, s);
    PutGeneration(r, key, t);
    SameScopesGrow(r.scopes);
    if sid in s.sessions.data {
      var o := s.sessions.data[sid];
      var to := Recipient(r, slow, o);
      var r' := Put(r, key, s);
      var r2 := if to.Some? then Log(r', SessionDelivered(key, sid, to.value)) else r';
      SendingKeepsScopes(r2, s, key, slow, o, 0, NoLocalDaemon(0));
    }
  }

  lemma DaemonGeneration(cfg: Config, r: Relay, ws: Socket, conn: Conn, f: Frame, allowed: bool, now: int, slow: set<Socket>)
    ensures GenerationsGrow(r.scopes, OnDaemonMessage(cfg, r, ws, conn, f, allowed, now, slow).scopes)
  {
    hide RouteKexResponse, RoutePairingResponse, RouteSessionOwned, GenerationsGrow;
    SameScopesGrow(r.scopes);
    match f.kind {
      case PairingResponse(_) => RoutePairingGeneration(r, conn.workspaceId, conn.scopeKey, f, now, slow);
      case KexResponse(_, _) => RouteKexGeneration(cfg, r, conn.workspaceId, conn.scopeKey, f, now, slow);
      case E2ee(sid) => RouteSessionGeneration(r, conn.workspaceId, conn.scopeKey, sid, now, slow);
      case KeyUpdate(sid) => RouteSessionGeneration(r, conn.workspaceId, conn.scopeKey, sid, now, slow);
      case _ =>
    }
  }

  lemma GrowTrans(a: map<string, Scope>, b: map<string, Scope>, c: map<string, Scope>)
    requires GenerationsGrow(a, b) && GenerationsGrow(b, c) && a.Keys <= b.Keys
    ensures GenerationsGrow(a, c)
  {
  }

  lemma TrackGeneration(cfg: Config, r: Relay, key: string, f: Frame, o: Owner, slow: set<Socket>, e: Effect)
    requires key in r.scopes
    ensures var r2 := TrackRequest(cfg, r, key, f, o);
            && GenerationsGrow(r.scopes, r2.scopes)
            && GenerationsGrow(r.scopes, Log(r2, e).scopes)
            && (HasOpenDaemon(r2, key) ==> GenerationsGrow(r.scopes, ToScopeDaemon(r2, key, slow).scopes))
  {
    hide Track, Trim;
  }

  lemma OnSessionEventGeneration(r: Relay, ws: Socket, conn: Conn, f: Frame, allowed: bool, now: int, slow: set<Socket>)
    requires SessionEventClient(f)
    ensures GenerationsGrow(r.scopes, OnSessionEventFrame(r, ws, conn, f, allowed, now, slow).scopes)
  {
    hide Trim, Put, Fan, GenerationsGrow, AfterSend;
    var key := conn.scopeKey;
    var channel := Trim(f.kind.channel);
    var s := Fetched(r.scopes, key, conn.workspaceId, None, now);
    SameScopesGrow(r.scopes);
    SendingKeepsScopes(r, s, key, slow, Owner(None, None, 0), ws, NoLocalDaemon(0));
    match f.kind {
      case Subscribe(_) =>
        var t := s.(subscribers := s.subscribers[channel := Subscribers(s, channel) + {ws}]);
        PutGeneration(r, key, t);
        SendingKeepsScopes(Put(r, key, t), s, key, slow, Owner(None, None, 0), ws, NoLocalDaemon(0));
      case Unsubscribe(_) =>
        var rest := Subscribers(s, channel) - {ws};
        var t := s.(subscribers := if rest == {} then s.subscribers - {channel} else s.subscribers[channel := rest]);
        PutGeneration(r, key, t);
        SendingKeepsScopes(Put(r, key, t), s, key, slow, Owner(None, None, 0), ws, NoLocalDaemon(0));
      case _ =>
        PutGeneration(r, key, s);
        FanKeepsScopes(Put(r, key, s), key, channel, Subscribers(s, channel) - {ws}, slow);
    }
  }

  lemma FanKeepsScopes(r: Relay, key: string, channel: string, group: set<Socket>, slow: set<Socket>)
    ensures Fan(r, key, channel, group, slow).scopes == r.scopes
  {
  }

  lemma ClientGeneration(cfg: Config, r: Relay, ws: Socket, conn: Conn, f: Frame, allowed: bool, now: int, slow: set<Socket>)
    requires conn.scopeKey in r.scopes
    ensures GenerationsGrow(r.scopes, OnClientMessage(cfg, r, ws, conn, f, allowed, now, slow).scopes)
  {
    hide Keep, TrackRequest, ToScopeDaemon, OnSessionEventFrame, GenerationsGrow;
    var key := conn.scopeKey;
    SameScopesGrow(r.scopes);
    var s := PruneAll(r.scopes[key], now);
    PutGeneration(r, key, s);
    var r1 := Put(r, key, s);
    TrackGeneration(cfg, r1, key, f, Owner(Some(ws), None, now), slow, NoLocalDaemon(ws));
    var r2 := TrackRequest(cfg, r1, key, f, Owner(Some(ws), None, now));
    GrowTrans(r.scopes, r1.scopes, r2.scopes);
    if HasOpenDaemon(r2, key) {
      GrowTrans(r.scopes, r1.scopes, ToScopeDaemon(r2, key, slow).scopes);
    }
    if SessionEventClient(f) {
      OnSessionEventGeneration(r, ws, conn, f, allowed, now, slow);
    }
  }

  lemma BusGeneration(cfg: Config, r: Relay, e: Event)
    requires e.Bus?
    ensures GenerationsGrow(r.scopes, OnBus(cfg, r, e).scopes)
  {
    hide Keep, TrackRequest, ToScopeDaemon, RouteKexResponse, RoutePairingResponse, RouteSessionOwned, RouteSessionEvent, GenerationsGrow, GenerationLe;
    SameScopesGrow(r.scopes);
    if e.runtimeTargetId != "" {
      var key := RuntimeScopeKey(e.workspaceId, Some(e.runtimeTargetId));
      TouchGeneration(r, key, e.workspaceId, Some(e.runtimeTargetId), e.now);
      var s := PruneAll(Fetched(r.scopes, key, e.workspaceId, Some(e.runtimeTargetId), e.now).(lastActivityAt := e.now), e.now);
      var r1 := Put(r, key, s);
      var r' := OnBus(cfg, r, e);
      if e.fromClient {
        TrackGeneration(cfg, r1, key, e.frame, Owner(None, Some(e.sourceRelayId), e.now), e.slow, NoLocalDaemon(0));
      } else {
        BusDaemonGeneration(cfg, r1, key, e);
      }
      SameScopesGrow(r1.scopes);
      GrowTrans(r.scopes, r1.scopes, r'.scopes);
    }
  }

  lemma TouchGeneration(r: Relay, key: string, workspaceId: string, runtimeTargetId: Option<string>, now: int)
    ensures var s := PruneAll(Fetched(r.scopes, key, workspaceId, runtimeTargetId, now).(lastActivityAt := now), now);
            && GenerationsGrow(r.scopes, Put(r, key, s).scopes)
            && (key in r.scopes ==> s.generation == r.scopes[key].generation)
  {
    hide Keep;
  }

  lemma BusDaemonGeneration(cfg: Config, r1: Relay, key: string, e: Event)
    requires e.Bus?
    ensures e.frame.kind.KexResponse? ==> GenerationsGrow(r1.scopes, RouteKexResponse(cfg, r1, e.workspaceId, key, e.frame, e.now, e.slow).scopes)
    ensures e.frame.kind.PairingResponse? ==> GenerationsGrow(r1.scopes, RoutePairingResponse(r1, e.workspaceId, key, e.frame, e.now, e.slow).scopes)
    ensures e.frame.kind.E2ee? || e.frame.kind.KeyUpdate? ==>
              GenerationsGrow(r1.scopes, RouteSessionOwned(r1, e.workspaceId, key, e.frame.kind.sessionId, e.now, e.slow).scopes)
    ensures e.frame.relayChannel.Some? ==>
              GenerationsGrow(r1.scopes, RouteSessionEvent(r1, e.workspaceId, key, e.frame.relayChannel.value, e.now, e.slow).scopes)
  {
    hide *;
    match e.frame.kind {
      case PairingResponse(_) => RoutePairingGeneration(r1, e.workspaceId, key, e.frame, e.now, e.slow);
      case KexResponse(_, _) => RouteKexGeneration(cfg, r1, e.workspaceId, key, e.frame, e.now, e.slow);
      case E2ee(sid) => RouteSessionGeneration(r1, e.workspaceId, key, sid, e.now, e.slow);
      case KeyUpdate(sid) => RouteSessionGeneration(r1, e.workspaceId, key, sid, e.now, e.slow);
      case _ =>
    }
    if e.frame.relayChannel.Some? {
      RouteSessionGeneration(r1, e.workspaceId, key, e.frame.relayChannel.value, e.now, e.slow);
    }
  }

  lemma ConnectGeneration(r: Relay, ws: Socket, conn: Conn, generation: Option<nat>, now: int)
    ensures GenerationsGrow(r.scopes, OnConnect(r, ws, conn, generation, now).scopes)
  {
    hide PruneAll, AdjustIp;
    TouchGeneration(r, conn.scopeKey, conn.workspaceId, conn.runtimeTargetId, now);
  }

  lemma CloseGeneration(r: Relay, ws: Socket, ttlMs: int, now: int)
    ensures ws in r.conns ==> GenerationsGrow(r.scopes, OnClosed(r, ws, now).scopes)
    ensures GenerationsGrow(r.scopes, WithoutIdle(r.scopes, ttlMs, now))
  {
    hide Keep, AdjustIp, WithoutSubscriber;
  }

  lemma GenerationStep(cfg: Config, r: Relay, e: Event)
    ensures GenerationsGrow(r.scopes, Step(cfg, r, e).scopes)
  {
    hide OnConnect, OnClientMessage, OnDaemonMessage, OnBus, OnClosed, WithoutIdle, GenerationsGrow;
    SameScopesGrow(r.scopes);
    if Enabled(r, e) {
      match e {
        case Connect(ws, conn, generation, now) => ConnectGeneration(r, ws, conn, generation, now);
        case Message(ws, f, allowed, now, slow) =>
          if r.conns[ws].role.Daemon? {
            DaemonGeneration(cfg, r, ws, r.conns[ws], f, allowed, now, slow);
          } else if r.conns[ws].scopeKey in r.scopes {
            ClientGeneration(cfg, r, ws, r.conns[ws], f, allowed, now, slow);
          }
        case Bus(_, _, _, _, _, _, _, _) => BusGeneration(cfg, r, e);
        case LeaveOpen(_) =>
        case Closed(ws, now) => CloseGeneration(r, ws, 0, now);
        case Prune(ttlMs, now) => CloseGeneration(r, 0, ttlMs, now);
        case Upgrade(key, now) => LookGeneration(r, key, now);
      }
    }
  }

  lemma LookGeneration(r: Relay, key: string, now: int)
    ensures GenerationsGrow(r.scopes, Put(r, key, Looked(r.scopes, key, now)).scopes)
  {
  }

  /** While a scope stays registered its issue generation never decreases. */
  lemma {:induction false} GenerationNeverDecreases(cfg: Config, states: seq<Relay>, events: seq<Event>, key: string, i: nat, n: nat)
    requires IsRun(cfg, states, events) && i <= n <= |events|
    requires forall m :: i <= m <= n ==> key in states[m].scopes
    ensures GenerationLe(states[i].scopes[key].generation, states[n].scopes[key].generation)
    decreases n
  {
    hide Step;
    if i < n {
      GenerationNeverDecreases(cfg, states, events, key, i, n - 1);
      GenerationStep(cfg, states[n - 1], events[n - 1]);
      assert key in states[n - 1].scopes && key in states[n].scopes;
    }
  }

  /** A connecting daemon takes over its scope, with the generation it brings, unless that is older than the
      scope's or another daemon is open; then nothing of the scope's daemon changes. */
  lemma DaemonConnectExactly(cfg: Config, r: Relay, e: Event)
    requires e.Connect? && Enabled(r, e) && e.conn.role.Daemon?
    ensures var t, key := Step(cfg, r, e), e.conn.scopeKey;
            var daemon := if key in r.scopes then r.scopes[key].daemon else None;
            var known := if key in r.scopes then r.scopes[key].generation else None;
            && key in t.scopes
            && if (e.generation.Some? && known.Some? && e.generation.value < known.value) || (daemon.Some? && daemon.value in r.open)
               then t.conns == r.conns && t.open == r.open && t.scopes[key].daemon == daemon && t.scopes[key].generation == known
               else && e.ws in t.conns && t.open == r.open + {e.ws} && t.scopes[key].daemon == Some(e.ws)
                    && t.scopes[key].generation == (if e.generation.Some? then e.generation else known)
                    && t.scopes[key].kex == Empty() && t.scopes[key].sessions == Empty()
  {
    hide AdjustIp, Keep;
  }

  /** While a scope stays registered, once a daemon of some generation was accepted no older one is. */
  lemma OutdatedDaemonIsRefused(cfg: Config, states: seq<Relay>, events: seq<Event>, i: nat, n: nat)
    requires |states| == |events| + 1 && IsRun(cfg, states, events) && i < n < |events|
    requires events[i].Connect? && events[i].conn.role.Daemon? && events[i].generation.Some?
    requires events[i].ws !in states[i].conns && events[i].ws in states[i + 1].conns
    requires events[n].Connect? && events[n].conn.role.Daemon? && events[n].generation.Some?
    requires events[n].conn.scopeKey == events[i].conn.scopeKey && events[n].generation.value < events[i].generation.value
    requires forall m :: i < m <= n ==> events[i].conn.scopeKey in states[m].scopes
    ensures states[n + 1].conns == states[n].conns && states[n + 1].open == states[n].open
    ensures events[i].conn.scopeKey in states[n + 1].scopes
    ensures states[n + 1].scopes[events[i].conn.scopeKey].daemon == states[n].scopes[events[i].conn.scopeKey].daemon
  {
    hide Step;
    var key := events[i].conn.scopeKey;
    assert states[i + 1] == Step(cfg, states[i], events[i]);
    assert states[n + 1] == Step(cfg, states[n], events[n]);
    if !Enabled(states[i], events[i]) {
      NotEnabled(cfg, states[i], events[i]);
    }
    DaemonConnectExactly(cfg, states[i], events[i]);
    GenerationNeverDecreases(cfg, states, events, key, i + 1, n);
    if Enabled(states[n], events[n]) {
      DaemonConnectExactly(cfg, states[n], events[n]);
    } else {
      NotEnabled(cfg, states[n], events[n]);
    }
  }

  lemma NotEnabled(cfg: Config, r: Relay, e: Event)
    requires !Enabled(r, e)
    ensures Step(cfg, r, e) == r
  {
  }

  /** Closing a superseded daemon leaves the current daemon and all three trackers in place. */
  lemma SupersededCloseIsHarmless(r: Relay, ws: Socket, now: int)
    requires ws in r.conns && r.conns[ws].role.Daemon?
    requires r.conns[ws].scopeKey in r.scopes && r.scopes[r.conns[ws].scopeKey].daemon != Some(ws)
    ensures var key := r.conns[ws].scopeKey;
            OnClosed(r, ws, now).scopes == r.scopes[key := r.scopes[key].(lastActivityAt := now)]
  {
  }

  // ----- connects, closes and pruning -----

  /** A connecting client is admitted under its connection data and is a client of its scope, whose activity is now;
      a worker is admitted. */
  lemma ConnectAdmits(cfg: Config, r: Relay, e: Event)
    requires e.Connect? && Enabled(r, e) && !e.conn.role.Daemon?
    ensures var t, key := Step(cfg, r, e), e.conn.scopeKey;
            && t.conns == r.conns[e.ws := e.conn] && t.open == r.open + {e.ws} && t.log == r.log
            && key in t.scopes && t.scopes[key].lastActivityAt == e.now
            && t.scopes[key].clients == (if key in r.scopes then r.scopes[key].clients else {}) + (if e.conn.role.Client? then {e.ws} else {})
            && t.scopes[key].daemon == (if key in r.scopes then r.scopes[key].daemon else None)
            && forall k :: k != key ==> (k in t.scopes <==> k in r.scopes) && (k in r.scopes ==> t.scopes[k] == r.scopes[k])
  {
    hide AdjustIp, Keep;
  }

  /** The second tracker has exactly the first one's entries of other clients and of other relays. */
  ghost predicate OthersKept(t: Tracker, u: Tracker, ws: Socket) {
    && (forall id :: id in u.data <==> id in t.data && t.data[id].clientWs != Some(ws))
    && (forall id :: id in u.data ==> u.data[id] == t.data[id])
  }

  /** A client takes its own requests, sessions and subscriptions along, and nobody else's. */
  ghost predicate WithoutClient(s: Scope, u: Scope, ws: Socket) {
    && u.clients == s.clients - {ws} && u.daemon == s.daemon && u.generation == s.generation
    && OthersKept(s.kex, u.kex, ws) && OthersKept(s.pairing, u.pairing, ws) && OthersKept(s.sessions, u.sessions, ws)
    && (forall ch :: ch in u.subscribers <==> ch in s.subscribers && s.subscribers[ch] - {ws} != {})
    && (forall ch :: ch in u.subscribers ==> u.subscribers[ch] == s.subscribers[ch] - {ws})
  }

  /** The current daemon takes all requests and sessions along; a superseded one nothing. */
  ghost predicate WithoutDaemon(s: Scope, u: Scope, ws: Socket) {
    && u.clients == s.clients && u.subscribers == s.subscribers && u.generation == s.generation
    && if s.daemon == Some(ws) then u.daemon.None? && u.kex == Empty() && u.pairing == Empty() && u.sessions == Empty()
       else u.daemon == s.daemon && u.kex == s.kex && u.pairing == s.pairing && u.sessions == s.sessions
  }

  lemma RemovedClient(s: Scope, ws: Socket, now: int)
    ensures WithoutClient(s, RemoveClient(s, ws, now), ws) && RemoveClient(s, ws, now).lastActivityAt == now
  {
    hide KeepOrder;
  }

  /** Closing takes the connection away, and from its scope what belongs to it. */
  lemma CloseForgets(cfg: Config, r: Relay, e: Event)
    requires e.Closed? && Enabled(r, e) && !r.conns[e.ws].role.Worker? && r.conns[e.ws].scopeKey in r.scopes
    ensures var t, key := Step(cfg, r, e), r.conns[e.ws].scopeKey;
            && t.conns == r.conns - {e.ws} && t.open == r.open - {e.ws} && t.log == r.log && t.scopes.Keys == r.scopes.Keys
            && (forall k :: k in r.scopes && k != key ==> t.scopes[k] == r.scopes[k])
            && t.scopes[key].lastActivityAt == e.now
            && (if r.conns[e.ws].role.Client? then WithoutClient(r.scopes[key], t.scopes[key], e.ws)
                else WithoutDaemon(r.scopes[key], t.scopes[key], e.ws))
  {
    hide AdjustIp, RemoveClient, WithoutClient;
    RemovedClient(r.scopes[r.conns[e.ws].scopeKey], e.ws, e.now);
  }

  /** Pruning takes away exactly the scopes without daemon and clients that have been quiet for the time given. */
  lemma PruneExactly(cfg: Config, r: Relay, ttlMs: int, now: int)
    ensures var t := Step(cfg, r, Prune(ttlMs, now));
            && t == r.(scopes := t.scopes)
            && (forall k :: k in t.scopes <==>
                  k in r.scopes && (r.scopes[k].daemon.Some? || r.scopes[k].clients != {} || r.scopes[k].lastActivityAt + ttlMs > now))
            && (forall k :: k in t.scopes ==> t.scopes[k] == r.scopes[k])
  {
  }

  /** An upgrade request leaves known scopes alone, and an unknown one is registered, empty, under its key. */
  lemma UpgradeExactly(cfg: Config, r: Relay, key: string, now: int)
    ensures var t := Step(cfg, r, Upgrade(key, now));
            && t == r.(scopes := t.scopes) && t.scopes.Keys == r.scopes.Keys + {key} && (forall k :: k in r.scopes ==> t.scopes[k] == r.scopes[k])
            && (key !in r.scopes ==>
                  var s := t.scopes[key];
                  && s.daemon.None? && s.clients == {} && s.subscribers == map[] && s.lastActivityAt == now
                  && s.kex == Empty() && s.pairing == Empty() && s.sessions == Empty() && s.generation.None?
                  && s.workspaceId == key && s.runtimeTargetId.None?)
  {
  }

  // ----- what a step may log -----

  predicate ClientOf(conns: map<Socket, Conn>, open: set<Socket>, c: Socket, key: string) {
    c in open && c in conns && conns[c].role.Client? && conns[c].scopeKey == key
  }

  /** The workspace id on whose behalf an event is handled. */
  function WorkspaceOf(conns: map<Socket, Conn>, e: Event): string {
    if e.Bus? then e.workspaceId else if e.Message? && e.ws in conns then conns[e.ws].workspaceId else "-"
  }

  predicate AsksWith(kind: Kind, kex: bool, id: string) {
    if kex then kind.KexInit? && Trim(kind.requestId) == id else kind.PairingRequest? && Trim(kind.requestId) == id
  }

  /** A request is tracked for a local client only when that client's own frame asks. */
  predicate AskedBy(conns: map<Socket, Conn>, e: Event, key: string, kex: bool, id: string, o: Owner) {
    match o.clientWs
    case Some(c) =>
      e.Message? && e.ws == c && c in conns && conns[c].role.Client? && conns[c].scopeKey == key && AsksWith(e.frame.kind, kex, id)
    case None =>
      e.Bus? && e.fromClient && o.sourceRelayId == Some(e.sourceRelayId) && AsksWith(e.frame.kind, kex, id)
  }

  /** The event is an end-to-end encrypted or key-update frame of the session, from a daemon of the scope or
      from the daemon side of the bus. */
  predicate CarriesSession(conns: map<Socket, Conn>, e: Event, key: string, sid: string) {
    && (e.Message? || e.Bus?) && (e.frame.kind == E2ee(sid) || e.frame.kind == KeyUpdate(sid))
    && (if e.Message? then e.ws in conns && conns[e.ws].role.Daemon? && conns[e.ws].scopeKey == key
        else !e.fromClient && RuntimeScopeKey(e.workspaceId, Some(e.runtimeTargetId)) == key)
  }

  /** The event is a key-exchange response with these ids, trimmed. */
  predicate Responds(e: Event, id: string, sid: string) {
    (e.Message? || e.Bus?) && e.frame.kind.KexResponse? && Trim(e.frame.kind.requestId) == id && Trim(e.frame.kind.sessionId) == sid
  }

  predicate EffectFrom(conns: map<Socket, Conn>, open: set<Socket>, e: Event, x: Effect) {
    match x
    case KexTracked(k, id, o) => AskedBy(conns, e, k, true, id, o)
    case PairingTracked(k, id, o) => AskedBy(conns, e, k, false, id, o)
    case KexAnswered(k, id, sid, _, to) => Responds(e, id, sid) && (to.Some? ==> ClientOf(conns, open, to.value, k))
    case PairingAnswered(k, _, _, to) => to.Some? ==> ClientOf(conns, open, to.value, k)
    case SessionDelivered(k, sid, to) => CarriesSession(conns, e, k, sid) && ClientOf(conns, open, to, k)
    case Published(_, _) => WorkspaceOf(conns, e) == ""
    case _ => true
  }

  ghost predicate Adds(conns: map<Socket, Conn>, open: set<Socket>, e: Event, l: seq<Effect>, l': seq<Effect>) {
    l <= l' && forall i :: |l| <= i < |l'| ==> EffectFrom(conns, open, e, l'[i])
  }

  lemma AddOne(conns: map<Socket, Conn>, open: set<Socket>, e: Event, l: seq<Effect>, m: seq<Effect>, x: Effect)
    requires Adds(conns, open, e, l, m) && EffectFrom(conns, open, e, x)
    ensures Adds(conns, open, e, l, m + [x])
  {
  }

  lemma AddNone(conns: map<Socket, Conn>, open: set<Socket>, e: Event, l: seq<Effect>)
    ensures Adds(conns, open, e, l, l)
  {
  }

  lemma HandAdds(e: Event, l: seq<Effect>, conns: map<Socket, Conn>, open: set<Socket>,
                 r: Relay, s: Scope, key: string, slow: set<Socket>, o: Owner)
    requires Adds(conns, open, e, l, r.log)
    requires NonEmpty(s.runtimeTargetId) ==> WorkspaceOf(conns, e) == ""
    ensures Adds(conns, open, e, l, Hand(r, s, key, slow, o).log)
  {
    if NonEmpty(o.sourceRelayId) && NonEmpty(s.runtimeTargetId) {
      AddOne(conns, open, e, l, r.log, Published(key, o.sourceRelayId.value));
    }
  }

  /** The owner a scope's tracker gives is a client of that scope. */
  lemma RecipientIsClient(cfg: Config, r: Relay, key: string, s: Scope, slow: set<Socket>)
    requires ScopeOk(cfg, r.conns, r.log, key, s)
    ensures forall id :: id in s.kex.data && Recipient(r, slow, s.kex.data[id]).Some? ==>
              ClientOf(r.conns, r.open, Recipient(r, slow, s.kex.data[id]).value, key)
    ensures forall id :: id in s.pairing.data && Recipient(r, slow, s.pairing.data[id]).Some? ==>
              ClientOf(r.conns, r.open, Recipient(r, slow, s.pairing.data[id]).value, key)
    ensures forall id :: id in s.sessions.data && Recipient(r, slow, s.sessions.data[id]).Some? ==>
              ClientOf(r.conns, r.open, Recipient(r, slow, s.sessions.data[id]).value, key)
  {
  }

  lemma FetchedUntargeted(scopes: map<string, Scope>, key: string, workspaceId: string, now: int)
    ensures NonEmpty(Fetched(scopes, key, workspaceId, None, now).runtimeTargetId) ==> workspaceId == ""
  {
  }

  lemma PrunedOk(cfg: Config, r: Relay, key: string, workspaceId: string, now: int)
    requires Inv(cfg, r)
    ensures var s := Fetched(r.scopes, key, workspaceId, None, now);
            && ScopeOk(cfg, r.conns, r.log, key, PruneKex(s, now))
            && ScopeOk(cfg, r.conns, r.log, key, PrunePairing(s, now))
            && ScopeOk(cfg, r.conns, r.log, key, PruneSessions(s, now))
  {
    hide Inv, ScopeOk;
    var s := Fetched(r.scopes, key, workspaceId, None, now);
    FetchedOk(cfg, r, key, workspaceId, None, now);
    ForgetOk(cfg, r.conns, r.log, key, s, PruneKex(s, now));
    ForgetOk(cfg, r.conns, r.log, key, s, PrunePairing(s, now));
    ForgetOk(cfg, r.conns, r.log, key, s, PruneSessions(s, now));
  }

  lemma AnswerFrom(conns: map<Socket, Conn>, open: set<Socket>, e: Event, key: string, id: string, sid: string, o: Owner, to: Option<Socket>)
    requires to.Some? ==> ClientOf(conns, open, to.value, key)
    ensures Responds(e, id, sid) ==> EffectFrom(conns, open, e, KexAnswered(key, id, sid, o, to))
    ensures EffectFrom(conns, open, e, PairingAnswered(key, id, o, to))
    ensures to.Some? && CarriesSession(conns, e, key, sid) ==> EffectFrom(conns, open, e, SessionDelivered(key, sid, to.value))
  {
    hide Responds, CarriesSession;
  }

  lemma RouteKexAdds(cfg: Config, r: Relay, e: Event, key: string, f: Frame, now: int, slow: set<Socket>)
    requires Inv(cfg, r) && (e.Message? || e.Bus?) && e.frame == f && f.kind.KexResponse?
    ensures Adds(r.conns, r.open, e, r.log, RouteKexResponse(cfg, r, WorkspaceOf(r.conns, e), key, f, now, slow).log)
  {
    hide Inv, ScopeOk, Keep, Track, Delete, Trim, Hand, Adds, Recipient, EffectFrom, Fetched, WorkspaceOf;
    var workspaceId := WorkspaceOf(r.conns, e);
    var id, sid := Trim(f.kind.requestId), Trim(f.kind.sessionId);
    var s := PruneKex(Fetched(r.scopes, key, workspaceId, None, now), now);
    PrunedOk(cfg, r, key, workspaceId, now);
    AddNone(r.conns, r.open, e, r.log);
    if id != "" && sid != "" && id in s.kex.data {
      var o := s.kex.data[id];
      var s' := AnsweredKex(s, id, sid, o.(createdAt := now), cfg.maxSessionOwnerTrack);
      var x := KexAnswered(key, id, sid, o, Recipient(r, slow, o));
      RecipientIsClient(cfg, r, key, s, slow);
      AnswerFrom(r.conns, r.open, e, key, id, sid, o, x.recipient);
      AddOne(r.conns, r.open, e, r.log, r.log, x);
      FetchedUntargeted(r.scopes, key, workspaceId, now);
      HandAdds(e, r.log, r.conns, r.open, Log(Put(r, key, s'), x), s', key, slow, o);
    }
  }

  lemma RoutePairingAdds(cfg: Config, r: Relay, e: Event, key: string, f: Frame, now: int, slow: set<Socket>)
    requires Inv(cfg, r) && f.kind.PairingResponse?
    ensures Adds(r.conns, r.open, e, r.log, RoutePairingResponse(r, WorkspaceOf(r.conns, e), key, f, now, slow).log)
  {
    hide Inv, ScopeOk, Keep, Track, Delete, Trim, Hand, Adds, Recipient, EffectFrom, Fetched, WorkspaceOf;
    var workspaceId := WorkspaceOf(r.conns, e);
    var id := Trim(f.kind.requestId);
    var s := PrunePairing(Fetched(r.scopes, key, workspaceId, None, now), now);
    PrunedOk(cfg, r, key, workspaceId, now);
    AddNone(r.conns, r.open, e, r.log);
    if id != "" && id in s.pairing.data {
      var o := s.pairing.data[id];
      var s' := s.(pairing := Delete(s.pairing, id));
      var x := PairingAnswered(key, id, o, Recipient(r, slow, o));
      RecipientIsClient(cfg, r, key, s, slow);
      AnswerFrom(r.conns, r.open, e, key, id, "", o, x.recipient);
      AddOne(r.conns, r.open, e, r.log, r.log, x);
      FetchedUntargeted(r.scopes, key, workspaceId, now);
      HandAdds(e, r.log, r.conns, r.open, Log(Put(r, key, s'), x), s', key, slow, o);
    }
  }

  lemma RouteSessionEventAdds(r: Relay, e: Event, key: string, raw: string, now: int, slow: set<Socket>)
    ensures Adds(r.conns, r.open, e, r.log, RouteSessionEvent(r, WorkspaceOf(r.conns, e), key, raw, now, slow).log)
  {
    hide Trim, Adds, Fetched, WorkspaceOf;
    var t := Fetched(r.scopes, key, WorkspaceOf(r.conns, e), None, now);
    AddNone(r.conns, r.open, e, r.log);
    FanAdds(r.conns, r.open, e, Put(r, key, t), key, Trim(raw), Subscribers(t, Trim(raw)), slow);
  }

  lemma RouteSessionAdds(cfg: Config, r: Relay, e: Event, key: string, sid: string, now: int, slow: set<Socket>)
    requires Inv(cfg, r) && CarriesSession(r.conns, e, key, sid)
    ensures Adds(r.conns, r.open, e, r.log, RouteSessionOwned(r, WorkspaceOf(r.conns, e), key, sid, now, slow).log)
  {
    hide Inv, ScopeOk, Keep, Hand, Adds, Recipient, Fetched, WorkspaceOf, EffectFrom, CarriesSession;
    var workspaceId := WorkspaceOf(r.conns, e);
    var s := PruneSessions(Fetched(r.scopes, key, workspaceId, None, now), now);
    PrunedOk(cfg, r, key, workspaceId, now);
    AddNone(r.conns, r.open, e, r.log);
    if sid in s.sessions.data {
      var o := s.sessions.data[sid];
      var to := Recipient(r, slow, o);
      RecipientIsClient(cfg, r, key, s, slow);
      AnswerFrom(r.conns, r.open, e, key, "", sid, o, to);
      var r' := Put(r, key, s);
      var r2 := if to.Some? then Log(r', SessionDelivered(key, sid, to.value)) else r';
      if to.Some? {
        AddOne(r.conns, r.open, e, r.log, r.log, SessionDelivered(key, sid, to.value));
      }
      FetchedUntargeted(r.scopes, key, workspaceId, now);
      HandAdds(e, r.log, r.conns, r.open, r2, s, key, slow, o);
    }
  }

  lemma FanAdds(conns: map<Socket, Conn>, open: set<Socket>, e: Event, r: Relay, key: string, channel: string, group: set<Socket>, slow: set<Socket>)
    ensures Adds(conns, open, e, r.log, Fan(r, key, channel, group, slow).log)
  {
  }

  lemma TrackAdds(cfg: Config, r: Relay, e: Event, key: string, f: Frame, o: Owner, slow: set<Socket>)
    requires key in r.scopes && (e.Message? || e.Bus?) && e.frame == f
    requires forall id, kex :: AsksWith(f.kind, kex, id) ==> AskedBy(r.conns, e, key, kex, id, o)
    ensures var r2 := TrackRequest(cfg, r, key, f, o);
            && Adds(r.conns, r.open, e, r.log, r2.log)
            && Adds(r.conns, r.open, e, r.log, Log(r2, NoLocalDaemon(0)).log)
            && (forall ws :: Adds(r.conns, r.open, e, r.log, Log(r2, NoLocalDaemon(ws)).log))
            && (HasOpenDaemon(r2, key) ==> Adds(r.conns, r.open, e, r.log, ToScopeDaemon(r2, key, slow).log))
  {
    hide Track, Trim, AskedBy;
    var id := if f.kind.KexInit? || f.kind.PairingRequest? then Trim(f.kind.requestId) else "";
    assert f.kind.KexInit? ==> AsksWith(f.kind, true, id);
    assert f.kind.PairingRequest? ==> AsksWith(f.kind, false, id);
  }

  /** The log only grows, and each new effect comes from the event as EffectFrom says. */
  lemma StepAdds(cfg: Config, r: Relay, e: Event)
    requires ValidConfig(cfg) && Inv(cfg, r)
    ensures Adds(r.conns, r.open, e, r.log, Step(cfg, r, e).log)
  {
    hide Inv, Adds, OnClientMessage, OnDaemonMessage, OnBus;
    AddNone(r.conns, r.open, e, r.log);
    if Enabled(r, e) && e.Message? {
      if r.conns[e.ws].role.Daemon? {
        DaemonMessageAdds(cfg, r, e);
      } else {
        InvClient(cfg, r, e.ws);
        ClientMessageAdds(cfg, r, e);
      }
    } else if e.Bus? {
      BusAdds(cfg, r, e);
    } else {
      QuietLog(cfg, r, e);
    }
  }

  lemma QuietLog(cfg: Config, r: Relay, e: Event)
    requires Enabled(r, e) ==> !e.Message? && !e.Bus?
    ensures Step(cfg, r, e).log == r.log
  {
    hide Fetched, PruneAll, AdjustIp, RemoveClient, ClearDaemon, WithoutIdle, Looked;
  }

  lemma ClientMessageAdds(cfg: Config, r: Relay, e: Event)
    requires ValidConfig(cfg) && Inv(cfg, r) && Enabled(r, e) && e.Message? && r.conns[e.ws].role.Client?
    ensures Adds(r.conns, r.open, e, r.log, OnClientMessage(cfg, r, e.ws, r.conns[e.ws], e.frame, e.allowed, e.now, e.slow).log)
  {
    hide Inv, ScopeOk, TrackRequest, ToScopeDaemon, OnSessionEventFrame, Adds, PruneAll;
    var conn := r.conns[e.ws];
    var key := conn.scopeKey;
    InvClient(cfg, r, e.ws);
    AddNone(r.conns, r.open, e, r.log);
    if SessionEventClient(e.frame) {
      SessionEventAdds(r, e);
    } else {
      var r1 := Put(r, key, PruneAll(r.scopes[key], e.now));
      TrackAdds(cfg, r1, e, key, e.frame, Owner(Some(e.ws), None, e.now), e.slow);
    }
  }

  lemma SessionEventAdds(r: Relay, e: Event)
    requires e.Message? && e.ws in r.conns && SessionEventClient(e.frame)
    ensures Adds(r.conns, r.open, e, r.log, OnSessionEventFrame(r, e.ws, r.conns[e.ws], e.frame, e.allowed, e.now, e.slow).log)
  {
    hide Trim, Fetched, Subscribers;
  }

  lemma DaemonMessageAdds(cfg: Config, r: Relay, e: Event)
    requires ValidConfig(cfg) && Inv(cfg, r) && Enabled(r, e) && e.Message? && r.conns[e.ws].role.Daemon?
    ensures Adds(r.conns, r.open, e, r.log, OnDaemonMessage(cfg, r, e.ws, r.conns[e.ws], e.frame, e.allowed, e.now, e.slow).log)
  {
    hide Inv, ScopeOk, RouteKexResponse, RoutePairingResponse, RouteSessionOwned, Adds;
    var conn := r.conns[e.ws];
    var key := conn.scopeKey;
    AddNone(r.conns, r.open, e, r.log);
    match e.frame.kind {
      case PairingResponse(_) => RoutePairingAdds(cfg, r, e, key, e.frame, e.now, e.slow);
      case KexResponse(_, _) => RouteKexAdds(cfg, r, e, key, e.frame, e.now, e.slow);
      case E2ee(sid) => RouteSessionAdds(cfg, r, e, key, sid, e.now, e.slow);
      case KeyUpdate(sid) => RouteSessionAdds(cfg, r, e, key, sid, e.now, e.slow);
      case _ =>
    }
  }

  lemma BusAdds(cfg: Config, r: Relay, e: Event)
    requires ValidConfig(cfg) && Inv(cfg, r) && e.Bus?
    ensures Adds(r.conns, r.open, e, r.log, OnBus(cfg, r, e).log)
  {
    hide Inv, ScopeOk, TrackRequest, ToScopeDaemon, RouteKexResponse, RoutePairingResponse, RouteSessionOwned, RouteSessionEvent, Adds, PruneAll, Fetched, EffectFrom;
    AddNone(r.conns, r.open, e, r.log);
    if e.runtimeTargetId != "" {
      var key := RuntimeScopeKey(e.workspaceId, Some(e.runtimeTargetId));
      var s := PruneAll(Fetched(r.scopes, key, e.workspaceId, Some(e.runtimeTargetId), e.now).(lastActivityAt := e.now), e.now);
      TouchedOk(cfg, r, key, e.workspaceId, Some(e.runtimeTargetId), e.now);
      PutKeeps(cfg, r, key, s);
      var r1 := Put(r, key, s);
      if e.fromClient {
        TrackAdds(cfg, r1, e, key, e.frame, Owner(None, Some(e.sourceRelayId), e.now), e.slow);
      } else {
        match e.frame.kind {
          case PairingResponse(_) => RoutePairingAdds(cfg, r1, e, key, e.frame, e.now, e.slow);
          case KexResponse(_, _) => RouteKexAdds(cfg, r1, e, key, e.frame, e.now, e.slow);
          case E2ee(sid) => RouteSessionAdds(cfg, r1, e, key, sid, e.now, e.slow);
          case KeyUpdate(sid) => RouteSessionAdds(cfg, r1, e, key, sid, e.now, e.slow);
          case _ =>
        }
        if e.frame.relayChannel.Some? {
          RouteSessionEventAdds(r1, e, key, e.frame.relayChannel.value, e.now, e.slow);
        }
      }
    }
  }

  // ----- delivery over a run -----

  /** The step of a run in which the i-th effect was logged. */
  lemma {:induction false} StepOfEffect(cfg: Config, states: seq<Relay>, events: seq<Event>, n: nat, i: nat) returns (m: nat)
    requires ValidConfig(cfg) && IsRun(cfg, states, events) && n <= |events| && i < |states[n].log|
    ensures m < n && |states[m].log| <= i < |states[m + 1].log| && states[m + 1].log <= states[n].log
    ensures Inv(cfg, states[m]) && EffectFrom(states[m].conns, states[m].open, events[m], states[n].log[i])
  {
    hide Inv, EffectFrom, Step;
    EveryRunKeeps(cfg, states, events, n - 1);
    StepAdds(cfg, states[n - 1], events[n - 1]);
    if i < |states[n - 1].log| {
      m := StepOfEffect(cfg, states, events, n - 1, i);
    } else {
      m := n - 1;
    }
  }

  predicate KexAbout(x: Effect, key: string, id: string) {
    (x.KexTracked? || x.KexAnswered?) && x.scope == key && x.id == id
  }

  predicate PairingAbout(x: Effect, key: string, id: string) {
    (x.PairingTracked? || x.PairingAnswered?) && x.scope == key && x.id == id
  }

  predicate Binds(x: Effect, key: string, sid: string) {
    x.KexAnswered? && x.scope == key && x.sessionId == sid
  }

  lemma {:induction false} LatestKexAt(log: seq<Effect>, key: string, id: string) returns (j: nat)
    requires LatestKex(log, key, id).Some?
    ensures j < |log| && log[j] == KexTracked(key, id, LatestKex(log, key, id).value)
    ensures forall l :: j < l < |log| ==> !KexAbout(log[l], key, id)
  {
    var n := |log| - 1;
    if log[n].KexTracked? && log[n].scope == key && log[n].id == id {
      j := n;
    } else {
      j := LatestKexAt(log[..n], key, id);
    }
  }

  lemma {:induction false} LatestPairingAt(log: seq<Effect>, key: string, id: string) returns (j: nat)
    requires LatestPairing(log, key, id).Some?
    ensures j < |log| && log[j] == PairingTracked(key, id, LatestPairing(log, key, id).value)
    ensures forall l :: j < l < |log| ==> !PairingAbout(log[l], key, id)
  {
    var n := |log| - 1;
    if log[n].PairingTracked? && log[n].scope == key && log[n].id == id {
      j := n;
    } else {
      j := LatestPairingAt(log[..n], key, id);
    }
  }

  lemma {:induction false} LatestBindAt(log: seq<Effect>, key: string, sid: string) returns (j: nat)
    requires LatestBind(log, key, sid).Some?
    ensures j < |log| && Binds(log[j], key, sid) && log[j].owner == LatestBind(log, key, sid).value
    ensures forall l :: j < l < |log| ==> !Binds(log[l], key, sid)
  {
    var n := |log| - 1;
    if Binds(log[n], key, sid) {
      j := n;
    } else {
      j := LatestBindAt(log[..n], key, sid);
    }
  }

  lemma RunJustified(cfg: Config, states: seq<Relay>, events: seq<Event>, n: nat, i: nat)
    requires ValidConfig(cfg) && IsRun(cfg, states, events) && n <= |events| && i < |states[n].log|
    ensures Justified(states[n].log[..i], states[n].log[i])
  {
    hide Step, Justified;
    EveryRunKeeps(cfg, states, events, n);
  }

  /** The frame of event m was client c's request with this id, in this scope. */
  predicate Asked(r: Relay, e: Event, key: string, kex: bool, id: string, c: Socket) {
    && e.Message? && e.ws == c && c in r.conns && r.conns[c].role.Client? && r.conns[c].scopeKey == key
    && AsksWith(e.frame.kind, kex, id)
  }

  lemma KexAskedBefore(log: seq<Effect>, i: nat) returns (j: nat)
    requires i < |log| && log[i].KexAnswered? && log[i].recipient.Some? && Justified(log[..i], log[i])
    ensures j < i && log[j] == KexTracked(log[i].scope, log[i].id, log[i].owner) && log[i].owner.clientWs == log[i].recipient
    ensures forall l :: j < l < i ==> !KexAbout(log[l], log[i].scope, log[i].id)
  {
    j := LatestKexAt(log[..i], log[i].scope, log[i].id);
    assert forall l :: j <= l < i ==> log[..i][l] == log[l];
  }

  lemma PairingAskedBefore(log: seq<Effect>, i: nat) returns (j: nat)
    requires i < |log| && log[i].PairingAnswered? && log[i].recipient.Some? && Justified(log[..i], log[i])
    ensures j < i && log[j] == PairingTracked(log[i].scope, log[i].id, log[i].owner) && log[i].owner.clientWs == log[i].recipient
    ensures forall l :: j < l < i ==> !PairingAbout(log[l], log[i].scope, log[i].id)
  {
    j := LatestPairingAt(log[..i], log[i].scope, log[i].id);
    assert forall l :: j <= l < i ==> log[..i][l] == log[l];
  }

  lemma BoundBefore(log: seq<Effect>, i: nat) returns (j: nat)
    requires i < |log| && log[i].SessionDelivered? && Justified(log[..i], log[i])
    ensures j < i && Binds(log[j], log[i].scope, log[i].sessionId) && log[j].owner.clientWs == Some(log[i].to)
    ensures forall l :: j < l < i ==> !Binds(log[l], log[i].scope, log[i].sessionId)
  {
    j := LatestBindAt(log[..i], log[i].scope, log[i].sessionId);
    assert forall l :: j <= l < i ==> log[..i][l] == log[l];
  }

  lemma AskedFrom(r: Relay, e: Event, key: string, id: string, o: Owner, c: Socket)
    requires o.clientWs == Some(c)
    ensures EffectFrom(r.conns, r.open, e, KexTracked(key, id, o)) ==> Asked(r, e, key, true, id, c)
    ensures EffectFrom(r.conns, r.open, e, PairingTracked(key, id, o)) ==> Asked(r, e, key, false, id, c)
  {
    hide Trim;
  }

  /** A key-exchange response that reaches a client answers that client's own request, the latest
      tracked with this id and unanswered until then; and the client is connected and open. */
  lemma KexResponseReachesAsker(cfg: Config, states: seq<Relay>, events: seq<Event>, n: nat, i: nat) returns (j: nat, m: nat)
    requires ValidConfig(cfg) && IsRun(cfg, states, events) && n <= |events| && i < |states[n].log|
    requires states[n].log[i].KexAnswered? && states[n].log[i].recipient.Some?
    ensures var x := states[n].log[i];
            && j < i && states[n].log[j] == KexTracked(x.scope, x.id, x.owner) && x.owner.clientWs == x.recipient
            && (forall l :: j < l < i ==> !KexAbout(states[n].log[l], x.scope, x.id))
            && m < n && |states[m].log| <= j < |states[m + 1].log|
            && Asked(states[m], events[m], x.scope, true, x.id, x.recipient.value)
  {
    var x := states[n].log[i];
    hide Trim, EffectFrom, Asked, Justified, KexAbout, PairingAbout, Binds, Inv, Step, LatestKex, LatestPairing, LatestBind;
    RunJustified(cfg, states, events, n, i);
    j := KexAskedBefore(states[n].log, i);
    m := StepOfEffect(cfg, states, events, n, j);
    AskedFrom(states[m], events[m], x.scope, x.id, x.owner, x.recipient.value);
  }

  lemma PairingResponseReachesAsker(cfg: Config, states: seq<Relay>, events: seq<Event>, n: nat, i: nat) returns (j: nat, m: nat)
    requires ValidConfig(cfg) && IsRun(cfg, states, events) && n <= |events| && i < |states[n].log|
    requires states[n].log[i].PairingAnswered? && states[n].log[i].recipient.Some?
    ensures var x := states[n].log[i];
            && j < i && states[n].log[j] == PairingTracked(x.scope, x.id, x.owner) && x.owner.clientWs == x.recipient
            && (forall l :: j < l < i ==> !PairingAbout(states[n].log[l], x.scope, x.id))
            && m < n && |states[m].log| <= j < |states[m + 1].log|
            && Asked(states[m], events[m], x.scope, false, x.id, x.recipient.value)
  {
    var x := states[n].log[i];
    hide Trim, EffectFrom, Asked, Justified, KexAbout, PairingAbout, Binds, Inv, Step, LatestKex, LatestPairing, LatestBind;
    RunJustified(cfg, states, events, n, i);
    j := PairingAskedBefore(states[n].log, i);
    m := StepOfEffect(cfg, states, events, n, j);
    AskedFrom(states[m], events[m], x.scope, x.id, x.owner, x.recipient.value);
  }

  /** Each tracked request is used up by at most one response: between two responses with one id
      there is another request with it. */
  lemma RequestAnsweredOnce(cfg: Config, states: seq<Relay>, events: seq<Event>, n: nat, i: nat, i': nat) returns (j: nat)
    requires ValidConfig(cfg) && IsRun(cfg, states, events) && n <= |events| && i < i' < |states[n].log|
    requires var x, y := states[n].log[i], states[n].log[i'];
             || (x.KexAnswered? && y.KexAnswered? && x.scope == y.scope && x.id == y.id)
             || (x.PairingAnswered? && y.PairingAnswered? && x.scope == y.scope && x.id == y.id)
    ensures i < j < i'
    ensures var y := states[n].log[i'];
            states[n].log[j] == if y.KexAnswered? then KexTracked(y.scope, y.id, y.owner) else PairingTracked(y.scope, y.id, y.owner)
  {
    hide Inv, Step, LatestKex, LatestPairing, LatestBind;
    var log := states[n].log;
    var y := log[i'];
    RunJustified(cfg, states, events, n, i');
    if y.KexAnswered? {
      j := LatestKexAt(log[..i'], y.scope, y.id);
      assert j < i ==> !KexAbout(log[..i'][i], y.scope, y.id);
    } else {
      j := LatestPairingAt(log[..i'], y.scope, y.id);
      assert j < i ==> !PairingAbout(log[..i'][i], y.scope, y.id);
    }
  }

  lemma DeliveredFrom(conns: map<Socket, Conn>, open: set<Socket>, e: Event, x: Effect)
    requires x.SessionDelivered? && EffectFrom(conns, open, e, x)
    ensures ClientOf(conns, open, x.to, x.scope) && CarriesSession(conns, e, x.scope, x.sessionId)
  {
  }

  /** What is handed to the owner of a session is a frame of that session, and the owner is the client whose
      key exchange last bound the id, still connected in the scope and open. */
  lemma SessionFrameReachesBinder(cfg: Config, states: seq<Relay>, events: seq<Event>, n: nat, i: nat) returns (j: nat, m: nat)
    requires ValidConfig(cfg) && IsRun(cfg, states, events) && n <= |events| && i < |states[n].log|
    requires states[n].log[i].SessionDelivered?
    ensures var x := states[n].log[i];
            && j < i && Binds(states[n].log[j], x.scope, x.sessionId) && states[n].log[j].owner.clientWs == Some(x.to)
            && (forall l :: j < l < i ==> !Binds(states[n].log[l], x.scope, x.sessionId))
            && m < n && |states[m].log| <= i < |states[m + 1].log|
            && CarriesSession(states[m].conns, events[m], x.scope, x.sessionId)
            && ClientOf(states[m].conns, states[m].open, x.to, x.scope)
            && x.scope in states[m].scopes && x.to in states[m].scopes[x.scope].clients
  {
    var x := states[n].log[i];
    hide Trim, EffectFrom, Asked, Justified, KexAbout, PairingAbout, Binds, Inv, Step, LatestKex, LatestPairing, LatestBind;
    RunJustified(cfg, states, events, n, i);
    j := BoundBefore(states[n].log, i);
    m := StepOfEffect(cfg, states, events, n, i);
    DeliveredFrom(states[m].conns, states[m].open, events[m], x);
    InvClient(cfg, states[m], x.to);
  }

  /** Nothing is published to another relay on behalf of a named workspace, in any run: fetching the
      scope for a response erases the runtime target it would be published under. */
  lemma NamedWorkspaceNeverPublishes(cfg: Config, states: seq<Relay>, events: seq<Event>, n: nat, i: nat) returns (m: nat)
    requires ValidConfig(cfg) && IsRun(cfg, states, events) && n <= |events| && i < |states[n].log|
    requires states[n].log[i].Published?
    ensures m < n && |states[m].log| <= i < |states[m + 1].log| && WorkspaceOf(states[m].conns, events[m]) == ""
  {
    hide Step, IsRun;
    m := StepOfEffect(cfg, states, events, n, i);
  }
}
