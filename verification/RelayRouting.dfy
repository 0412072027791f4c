/**
  The routing handlers of one relay, working on the registry's objects. The messages of a client are
  handled on the state its handlers captured when it connected. Every event method does exactly what the
  relay's state machine says, so what every run of the machine keeps, these objects keep.
*/
module RelayRouting {
  import opened Basics
  import opened OrderedMap
  import opened JsStrings
  import opened RelaySpec
  import opened RelayProofs
  import opened RelayRegistry

  class RelayServer {
    const cfg: Config
    const registry: ConnectionRegistry
    var conns: map<Socket, Conn>
    var captured: map<Socket, WorkspaceState>
    var open: set<Socket>
    var ipConnectionCounts: map<string, int>
    ghost var log: seq<Effect>

    ghost function View(): Relay
      reads this, registry, registry.workspaces.Values
    {
      Relay(registry.View(), conns, open, ipConnectionCounts, log)
    }

    /** The state that a live client's handlers captured is the registered one. */
    ghost predicate CapturedIsRegistered()
      reads this, registry
    {
      forall c :: c in conns && conns[c].role.Client? ==>
        && c in captured
        && conns[c].scopeKey in registry.workspaces
        && registry.workspaces[conns[c].scopeKey] == captured[c]
    }

    ghost predicate Valid()
      reads this, registry, registry.workspaces.Values
    {
      registry.Valid() && CapturedIsRegistered() && ValidConfig(cfg) && Inv(cfg, View())
    }

    constructor (cfg: Config)
      requires ValidConfig(cfg)
      ensures Valid() && View() == INITIAL && this.cfg == cfg
      ensures fresh(registry) && registry.workspaces == map[]
    {
      this.cfg := cfg;
      registry := new ConnectionRegistry();
      conns, captured, open, ipConnectionCounts, log := map[], map[], {}, map[], [];
      new;
      InitialInv(cfg);
    }

    /** Send to a socket, unless it is not open; one whose buffer is over the limit is closed instead. */
    method SafeSend(to: Socket, slow: set<Socket>) returns (sent: bool)
      modifies this`open
      ensures open == if to in old(open) && to in slow then old(open) - {to} else old(open)
      ensures sent <==> to in old(open) && to !in slow
    {
      if to !in open {
        return false;
      }
      if to in slow {
        open := open - {to};
        return false;
      }
      return true;
    }

    /** The tail that the three response routes share: local client, or bus, or dropped. */
    method HandBack(state: WorkspaceState, key: string, owner: Owner, slow: set<Socket>)
      modifies this`open, this`log
      ensures View() == Hand(old(View()), state.View(), key, slow, owner)
    {
      if owner.clientWs.Some? && owner.clientWs.value in open {
        var _ := SafeSend(owner.clientWs.value, slow);
      } else if NonEmpty(owner.sourceRelayId) && NonEmpty(state.runtimeTargetId) {
        log := log + [Published(key, owner.sourceRelayId.value)];
      }
    }

    ghost predicate Registered(key: string, state: WorkspaceState)
      reads registry
    {
      registry.Valid() && key in registry.workspaces && registry.workspaces[key] == state
    }

    /** Of the registry, only one entry has changed; of the rest, nothing. */
    twostate lemma OnlyScope(key: string)
      requires key in registry.workspaces
      requires registry.workspaces.Keys == old(registry.workspaces.Keys) + {key}
      requires forall k :: k in registry.workspaces && k != key ==>
                 && k in old(registry.workspaces)
                 && registry.workspaces[k] == old(registry.workspaces)[k]
                 && registry.workspaces[k].View() == old(registry.workspaces[k].View())
      requires unchanged(this)
      ensures View() == Put(old(View()), key, registry.workspaces[key].View())
    {
      registry.OnlyChanged(key);
    }

    /** An entry whose owner is known: consume it and hand the response over. */
    method AnswerPairing(state: WorkspaceState, key: string, id: string, slow: set<Socket>)
      requires Registered(key, state) && id in state.pairingRequests.data
      modifies this`open, this`log, state
      ensures View() == PairingHandled(old(View()), key, old(state.View()), id, slow)
    {
      hide Delete, AfterSend, RelaySpec.Hand, ConnectionRegistry.View;
      var owner := state.pairingRequests.data[id];
      state.pairingRequests := Delete(state.pairingRequests, id);
      OnlyScope(key);
      log := log + [PairingAnswered(key, id, owner, Recipient(View(), slow, owner))];
      HandBack(state, key, owner, slow);
    }

    method RoutePairingResponse(workspaceId: string, key: string, f: Frame, now: int, slow: set<Socket>)
      requires registry.Valid() && f.kind.PairingResponse?
      modifies this`open, this`log, registry, registry.workspaces.Values
      ensures registry.Extended()
      ensures View() == RelaySpec.RoutePairingResponse(old(View()), workspaceId, key, f, now, slow)
    {
      hide Trim, Fetched, PrunePairing, PairingHandled, Put;
      ghost var was := View();
      var state := registry.GetOrCreate(key, workspaceId, None, now);
      state.PruneStalePairingRequests(now);
      OnlyScope(key);
      var id := Trim(f.kind.requestId);
      if id == "" || id !in state.pairingRequests.data {
        return;
      }
      ghost var s := state.View();
      PairingHandledAfterPut(was, key, s, id, slow);
      AnswerPairing(state, key, id, slow);
      assert View() == PairingHandled(was, key, s, id, slow);
    }

    method AnswerKeyExchange(state: WorkspaceState, key: string, id: string, sid: string, now: int, slow: set<Socket>)
      requires Registered(key, state) && id in state.keyExchangeRequests.data
      modifies this`open, this`log, state
      ensures View() == KexHandled(cfg, old(View()), key, old(state.View()), id, sid, now, slow)
    {
      hide Delete, AfterSend, RelaySpec.Hand, Track, EvictTo, ConnectionRegistry.View;
      var owner := state.keyExchangeRequests.data[id];
      state.keyExchangeRequests := Delete(state.keyExchangeRequests, id);
      var sessionOwners := TrackInto(state.sessionOwners, sid, owner.(createdAt := now), cfg.maxSessionOwnerTrack);
      state.sessionOwners := sessionOwners;
      OnlyScope(key);
      log := log + [KexAnswered(key, id, sid, owner, Recipient(View(), slow, owner))];
      HandBack(state, key, owner, slow);
    }

    method RouteKeyExchangeResponse(workspaceId: string, key: string, f: Frame, now: int, slow: set<Socket>)
      requires registry.Valid() && f.kind.KexResponse?
      modifies this`open, this`log, registry, registry.workspaces.Values
      ensures registry.Extended()
      ensures View() == RouteKexResponse(cfg, old(View()), workspaceId, key, f, now, slow)
    {
      hide Trim, Fetched, PruneKex, KexHandled, Put;
      ghost var was := View();
      var id, sid := Trim(f.kind.requestId), Trim(f.kind.sessionId);
      if id == "" || sid == "" {
        return;
      }
      var state := registry.GetOrCreate(key, workspaceId, None, now);
      state.PruneStaleKeyExchangeRequests(now);
      OnlyScope(key);
      if id !in state.keyExchangeRequests.data {
        return;
      }
      ghost var s := state.View();
      KexHandledAfterPut(cfg, was, key, s, id, sid, now, slow);
      AnswerKeyExchange(state, key, id, sid, now, slow);
      assert View() == KexHandled(cfg, was, key, s, id, sid, now, slow);
    }

    method RouteSessionOwnedFrame(workspaceId: string, key: string, sid: string, now: int, slow: set<Socket>)
      requires registry.Valid()
      modifies this`open, this`log, registry, registry.workspaces.Values
      ensures registry.Extended()
      ensures View() == RouteSessionOwned(old(View()), workspaceId, key, sid, now, slow)
    {
      hide Fetched, PruneSessions, RelaySpec.Hand, ConnectionRegistry.View;
      var state := registry.GetOrCreate(key, workspaceId, None, now);
      state.PruneStaleSessionOwners(now);
      OnlyScope(key);
      if sid in state.sessionOwners.data {
        DeliverToOwner(state, key, sid, slow);
      }
    }

    method DeliverToOwner(state: WorkspaceState, key: string, sid: string, slow: set<Socket>)
      requires sid in state.sessionOwners.data
      modifies this`open, this`log
      ensures var owner := state.sessionOwners.data[sid];
              var to := Recipient(old(View()), slow, owner);
              View() == Hand(if to.Some? then Log(old(View()), SessionDelivered(key, sid, to.value)) else old(View()), state.View(), key, slow, owner)
    {
      hide RelaySpec.Hand, ConnectionRegistry.View;
      var owner := state.sessionOwners.data[sid];
      ghost var to := Recipient(View(), slow, owner);
      log := if to.Some? then log + [SessionDelivered(key, sid, to.value)] else log;
      HandBack(state, key, owner, slow);
    }

    /** `for (const client of subscribers)`: send to each one that is open. */
    method FanOut(key: string, channel: string, group: set<Socket>, slow: set<Socket>)
      modifies this`open, this`log
      ensures View() == Fan(old(View()), key, channel, group, slow)
    {
      ghost var delivered: set<Socket> := {};
      var todo := group;
      while todo != {}
        invariant todo <= group
        invariant open == old(open) - ((group - todo) * slow)
        invariant delivered == ((group - todo) * old(open)) - slow
        invariant View() == old(View()).(open := open)
        decreases todo
      {
        var client :| client in todo;
        todo := todo - {client};
        if client in open {
          var sent := SafeSend(client, slow);
          delivered := if sent then delivered + {client} else delivered;
        }
      }
      assert group - todo == group;
      log := log + [Fanned(key, channel, delivered)];
    }

    method RouteSessionEventRelayFrame(workspaceId: string, key: string, rawChannel: string, now: int, slow: set<Socket>)
      requires registry.Valid()
      modifies this`open, this`log, registry, registry.workspaces.Values
      ensures registry.Extended()
      ensures View() == RouteSessionEvent(old(View()), workspaceId, key, rawChannel, now, slow)
    {
      hide Fetched, Fan, Trim;
      var channel := Trim(rawChannel);
      if channel == "" {
        return;
      }
      var state := registry.GetOrCreate(key, workspaceId, None, now);
      OnlyScope(key);
      FanOut(key, channel, Subscribers(state.View(), channel), slow);
    }

    method AdjustIpConnectionCount(ip: string, delta: int)
      modifies this`ipConnectionCounts
      ensures ipConnectionCounts == AdjustIp(old(ipConnectionCounts), ip, delta)
    {
      var next := (if ip in ipConnectionCounts then ipConnectionCounts[ip] else 0) + delta;
      if next <= 0 {
        ipConnectionCounts := ipConnectionCounts - {ip};
      } else {
        ipConnectionCounts := ipConnectionCounts[ip := next];
      }
    }

    /** `closeWithReason`: the socket is no longer open; its close event follows later. */
    method CloseWithReason(ws: Socket)
      modifies this`open
      ensures View() == CloseSocket(old(View()), ws)
    {
      open := open - {ws};
    }

    method Reply(ws: Socket, slow: set<Socket>)
      modifies this`open
      ensures View() == AfterSend(old(View()), slow, ws)
    {
      var _ := SafeSend(ws, slow);
    }

    /** An authorized subscription or unsubscription. */
    method ChangeSubscription(ws: Socket, conn: Conn, subscribe: bool, channel: string, now: int)
      requires registry.Valid()
      modifies registry, registry.workspaces.Values
      ensures registry.Extended()
      ensures var s := Fetched(old(View()).scopes, conn.scopeKey, conn.workspaceId, None, now);
              var rest := Subscribers(s, channel) - {ws};
              View() == Put(old(View()), conn.scopeKey, s.(subscribers :=
                          if subscribe then s.subscribers[channel := Subscribers(s, channel) + {ws}]
                          else if rest == {} then s.subscribers - {channel} else s.subscribers[channel := rest]))
    {
      hide Fetched, ConnectionRegistry.View;
      var state := registry.GetOrCreate(conn.scopeKey, conn.workspaceId, None, now);
      if subscribe {
        state.Subscribe(channel, ws);
      } else {
        state.Unsubscribe(channel, ws);
      }
      OnlyScope(conn.scopeKey);
    }

    method HandleSessionEventClientFrame(ws: Socket, conn: Conn, f: Frame, allowed: bool, now: int, slow: set<Socket>)
      requires registry.Valid() && (f.kind.Subscribe? || f.kind.Unsubscribe?)
      modifies this`open, registry, registry.workspaces.Values
      ensures registry.Extended()
      ensures View() == OnSessionEventFrame(old(View()), ws, conn, f, allowed, now, slow)
    {
      hide Fetched, AfterSend, Trim, Put, ConnectionRegistry.View;
      var channel := Trim(f.kind.channel);
      if channel == "" || channel !in conn.channels {
        Reply(ws, slow);
        return;
      }
      ChangeSubscription(ws, conn, f.kind.Subscribe?, channel, now);
      Reply(ws, slow);
    }

    method RouteSessionViewerPresenceFrame(ws: Socket, conn: Conn, f: Frame, allowed: bool, now: int, slow: set<Socket>)
      requires registry.Valid() && f.kind.ViewerPresence?
      modifies this`open, this`log, registry, registry.workspaces.Values
      ensures registry.Extended()
      ensures View() == OnSessionEventFrame(old(View()), ws, conn, f, allowed, now, slow)
    {
      hide Fetched, AfterSend, Trim, Fan, ConnectionRegistry.View;
      var channel := Trim(f.kind.channel);
      if channel == "" || channel !in conn.channels {
        Reply(ws, slow);
        return;
      }
      if !allowed {
        CloseWithReason(ws);
        return;
      }
      var state := registry.GetOrCreate(conn.scopeKey, conn.workspaceId, None, now);
      OnlyScope(conn.scopeKey);
      FanOut(conn.scopeKey, channel, Subscribers(state.View(), channel) - {ws}, slow);
    }

    /** Remember who asked, before passing a key-exchange or pairing request on. */
    method TrackRequester(state: WorkspaceState, key: string, f: Frame, owner: Owner)
      requires Registered(key, state)
      modifies this`log, state
      ensures View() == TrackRequest(cfg, old(View()), key, f, owner)
    {
      hide Track, EvictTo, Trim, ConnectionRegistry.View;
      RegisteredView(key, state);
      if f.kind.KexInit? {
        var id := Trim(f.kind.requestId);
        if id != "" {
          var requests := TrackInto(state.keyExchangeRequests, id, owner, cfg.maxPairingRequestTrack);
          state.keyExchangeRequests := requests;
          OnlyScope(key);
          log := log + [KexTracked(key, id, owner)];
        }
      } else if f.kind.PairingRequest? {
        var id := Trim(f.kind.requestId);
        if id != "" {
          var requests := TrackInto(state.pairingRequests, id, owner, cfg.maxPairingRequestTrack);
          state.pairingRequests := requests;
          OnlyScope(key);
          log := log + [PairingTracked(key, id, owner)];
        }
      }
    }

    lemma RegisteredView(key: string, state: WorkspaceState)
      requires Registered(key, state)
      ensures key in View().scopes && View().scopes[key] == state.View()
      ensures View().scopes.Keys == registry.workspaces.Keys
    {
    }

    /** `safeSend(state.daemon, text)`, for a daemon seen open. */
    method SendToDaemon(state: WorkspaceState, key: string, slow: set<Socket>)
      requires Registered(key, state) && state.daemon.Some?
      modifies this`open, this`log
      ensures key in old(View()).scopes && old(View()).scopes[key] == state.View()
      ensures View() == ToScopeDaemon(old(View()), key, slow)
    {
      hide ConnectionRegistry.View;
      RegisteredView(key, state);
      var sent := SafeSend(state.daemon.value, slow);
      log := if sent then log + [ToDaemon(key, state.daemon.value)] else log;
    }

    /** A frame from a client, handled on the state captured when the client connected. */
    method OnClientFrame(ws: Socket, f: Frame, allowed: bool, now: int, slow: set<Socket>)
      requires registry.Valid() && CapturedIsRegistered() && ws in conns && conns[ws].role.Client?
      modifies this`open, this`log, registry, registry.workspaces.Values
      ensures registry.Extended()
      ensures old(View()).scopes.Keys == old(registry.workspaces).Keys
      ensures View() == OnClientMessage(cfg, old(View()), ws, conns[ws], f, allowed, now, slow)
    {
      hide ConnectionRegistry.View, TrackRequest, ToScopeDaemon, AfterSend, PruneAll, OnSessionEventFrame, PassesGates;
      var conn, state := conns[ws], captured[ws];
      var key := conn.scopeKey;
      RegisteredView(key, state);
      if f.bytes > cfg.maxFrameBytes {
        CloseWithReason(ws);
      } else if !AllowedClient(f) {
        Reply(ws, slow);
      } else if conn.clientScope.SessionEventsScope? {
        if !SessionEventClient(f) {
          Reply(ws, slow);
        } else if f.kind.ViewerPresence? {
          RouteSessionViewerPresenceFrame(ws, conn, f, allowed, now, slow);
        } else {
          HandleSessionEventClientFrame(ws, conn, f, allowed, now, slow);
        }
      } else if SessionEventClient(f) {
        CloseWithReason(ws);
      } else {
        state.PruneStale(now);
        OnlyScope(key);
        if !PassesGates(conn, f, allowed) {
          CloseWithReason(ws);
          return;
        }
        TrackRequester(state, key, f, Owner(Some(ws), None, now));
        RegisteredView(key, state);
        if state.daemon.Some? && state.daemon.value in open {
          SendToDaemon(state, key, slow);
        } else {
          log := log + [NoLocalDaemon(ws)];
        }
      }
    }

    method OnDaemonFrame(ws: Socket, conn: Conn, f: Frame, allowed: bool, now: int, slow: set<Socket>)
      requires registry.Valid()
      modifies this`open, this`log, registry, registry.workspaces.Values
      ensures registry.Extended()
      ensures View() == OnDaemonMessage(cfg, old(View()), ws, conn, f, allowed, now, slow)
    {
      hide ConnectionRegistry.View, RouteKexResponse, RelaySpec.RoutePairingResponse, RouteSessionOwned;
      if !allowed || f.bytes > cfg.maxFrameBytes {
        CloseWithReason(ws);
      } else if !AllowedDaemon(f) {
      } else if conn.profile.Some? && f.profile.Some? && Strength(f.profile.value) < Strength(conn.profile.value) {
        CloseWithReason(ws);
      } else if f.kind.PairingResponse? {
        RoutePairingResponse(conn.workspaceId, conn.scopeKey, f, now, slow);
      } else if f.kind.KexResponse? {
        RouteKeyExchangeResponse(conn.workspaceId, conn.scopeKey, f, now, slow);
      } else if f.kind.E2ee? || f.kind.KeyUpdate? {
        RouteSessionOwnedFrame(conn.workspaceId, conn.scopeKey, f.kind.sessionId, now, slow);
      }
    }

    /** Fetch the entry of a scope, note the activity and drop what has expired. */
    method FetchAndPrune(key: string, workspaceId: string, runtimeTargetId: Option<string>, now: int) returns (state: WorkspaceState)
      requires registry.Valid()
      modifies registry, registry.workspaces.Values
      ensures registry.Extended() && Registered(key, state)
      ensures state.View() == PruneAll(Fetched(old(View()).scopes, key, workspaceId, runtimeTargetId, now).(lastActivityAt := now), now)
      ensures View() == Put(old(View()), key, state.View())
      ensures old(CapturedIsRegistered()) ==> CapturedIsRegistered()
    {
      hide Fetched, PruneAll, ConnectionRegistry.View;
      state := registry.GetOrCreate(key, workspaceId, runtimeTargetId, now);
      state.lastActivityAt := now;
      state.PruneStale(now);
      OnlyScope(key);
    }

    method RouteDaemonBusFrame(e: Event, key: string)
      requires registry.Valid() && e.Bus?
      modifies this`open, this`log, registry, registry.workspaces.Values
      ensures registry.Extended()
      ensures View() == OnDaemonBusFrame(cfg, old(View()), e, key)
    {
      hide ConnectionRegistry.View, RouteKexResponse, RelaySpec.RoutePairingResponse, RouteSessionOwned, RouteSessionEvent;
      if e.frame.kind.KexResponse? {
        RouteKeyExchangeResponse(e.workspaceId, key, e.frame, e.now, e.slow);
      } else if e.frame.kind.PairingResponse? {
        RoutePairingResponse(e.workspaceId, key, e.frame, e.now, e.slow);
      } else if e.frame.relayChannel.Some? {
        RouteSessionEventRelayFrame(e.workspaceId, key, e.frame.relayChannel.value, e.now, e.slow);
      } else if e.frame.kind.E2ee? || e.frame.kind.KeyUpdate? {
        RouteSessionOwnedFrame(e.workspaceId, key, e.frame.kind.sessionId, e.now, e.slow);
      }
    }

    method RouteBusFrame(e: Event)
      requires registry.Valid() && e.Bus?
      modifies this`open, this`log, registry, registry.workspaces.Values
      ensures registry.Extended()
      ensures View() == OnBus(cfg, old(View()), e)
    {
      hide ConnectionRegistry.View, TrackRequest, ToScopeDaemon, Fetched, PruneAll, Put, OnDaemonBusFrame;
      if e.runtimeTargetId == "" {
        return;
      }
      var key := RuntimeScopeKey(e.workspaceId, Some(e.runtimeTargetId));
      var state := FetchAndPrune(key, e.workspaceId, Some(e.runtimeTargetId), e.now);
      RegisteredView(key, state);
      if e.fromClient {
        if AllowedClient(e.frame) {
          TrackRequester(state, key, e.frame, Owner(None, Some(e.sourceRelayId), e.now));
          RegisteredView(key, state);
          if state.daemon.Some? && state.daemon.value in open {
            SendToDaemon(state, key, e.slow);
          }
        }
      } else if AllowedDaemon(e.frame) && e.allowed {
        RouteDaemonBusFrame(e, key);
      }
    }

    /** An accepted socket: its handlers capture the state, and its address is counted. */
    method Register(ws: Socket, conn: Conn, state: WorkspaceState)
      modifies this`conns, this`captured, this`open, this`ipConnectionCounts
      ensures conns == old(conns)[ws := conn] && captured == old(captured)[ws := state]
      ensures View() == Admit(old(View()), ws, conn)
    {
      hide AdjustIp, ConnectionRegistry.View;
      conns := conns[ws := conn];
      captured := captured[ws := state];
      open := open + {ws};
      AdjustIpConnectionCount(conn.ip, 1);
    }

    method RegisterClient(ws: Socket, conn: Conn, state: WorkspaceState)
      requires Registered(conn.scopeKey, state)
      modifies this`conns, this`captured, this`open, this`ipConnectionCounts, state
      ensures conns == old(conns)[ws := conn] && captured == old(captured)[ws := state]
      ensures old(CapturedIsRegistered()) ==> CapturedIsRegistered()
      ensures View() == Admit(Put(old(View()), conn.scopeKey, old(state.View()).(clients := old(state.View()).clients + {ws})), ws, conn)
    {
      hide ConnectionRegistry.View, Admit;
      state.clients := state.clients + {ws};
      OnlyScope(conn.scopeKey);
      Register(ws, conn, state);
    }

    method RegisterDaemon(ws: Socket, conn: Conn, state: WorkspaceState, generation: Option<nat>)
      requires Registered(conn.scopeKey, state)
      modifies this`conns, this`captured, this`open, this`ipConnectionCounts, state
      ensures conns == old(conns)[ws := conn] && captured == old(captured)[ws := state]
      ensures old(CapturedIsRegistered()) ==> CapturedIsRegistered()
      ensures View() == Admit(Put(old(View()), conn.scopeKey, Handed(old(state.View()), ws, generation)), ws, conn)
    {
      hide ConnectionRegistry.View, Admit;
      state.AdoptDaemon(ws, generation);
      OnlyScope(conn.scopeKey);
      Register(ws, conn, state);
    }

    method RegisterConnection(ws: Socket, conn: Conn, generation: Option<nat>, now: int)
      requires registry.Valid() && CapturedIsRegistered()
      modifies this, registry, registry.workspaces.Values
      ensures View() == OnConnect(old(View()), ws, conn, generation, now)
      ensures registry.Valid() && CapturedIsRegistered()
    {
      hide ConnectionRegistry.View, Fetched, PruneAll, Admit, Put;
      var key := conn.scopeKey;
      var state := FetchAndPrune(key, conn.workspaceId, conn.runtimeTargetId, now);
      RegisteredView(key, state);
      if conn.role.Client? {
        RegisterClient(ws, conn, state);
      } else if conn.role.Worker? {
        Register(ws, conn, state);
      } else if generation.Some? && state.daemonIssueGeneration.Some? && generation.value < state.daemonIssueGeneration.value {
      } else if state.daemon.Some? && state.daemon.value in open {
      } else {
        RegisterDaemon(ws, conn, state, generation);
      }
    }

    method OnClose(ws: Socket, now: int)
      requires registry.Valid() && CapturedIsRegistered() && ws in conns
      modifies this`conns, this`captured, this`open, this`ipConnectionCounts, registry.workspaces.Values
      ensures View() == OnClosed(old(View()), ws, now)
      ensures registry.Valid() && CapturedIsRegistered()
    {
      hide ConnectionRegistry.View, RelaySpec.RemoveClient, RelaySpec.ClearDaemon, AdjustIp;
      ViewKeys();
      var conn := conns[ws];
      if conn.role.Client? {
        registry.RemoveClient(conn.scopeKey, ws, now);
      } else if conn.role.Daemon? {
        var _ := registry.ClearDaemon(conn.scopeKey, ws, now);
      }
      Forget(ws, conn.ip);
    }

    /** The socket is gone, and its address is counted down. */
    method Forget(ws: Socket, ip: string)
      modifies this`conns, this`open, this`ipConnectionCounts
      ensures conns == old(conns) - {ws}
      ensures View() == old(View()).(conns := old(conns) - {ws}, open := old(open) - {ws}, ips := AdjustIp(old(ipConnectionCounts), ip, -1))
    {
      hide AdjustIp, ConnectionRegistry.View;
      AdjustIpConnectionCount(ip, -1);
      conns, open := conns - {ws}, open - {ws};
    }

    lemma ViewKeys()
      ensures View().scopes.Keys == registry.workspaces.Keys
    {
    }

    /** `pruneEmpty` never drops a state that a live client's handlers hold. */
    method PruneEmpty(ttlMs: int, now: int)
      requires Valid()
      modifies registry
      ensures View() == old(View()).(scopes := WithoutIdle(old(View()).scopes, ttlMs, now))
      ensures registry.Valid() && CapturedIsRegistered()
    {
      hide WithoutIdle, IpsOk, AllJustified, ScopesOk, OpenDaemonsCurrent;
      ghost var r := View();
      var removed := registry.PruneEmpty(ttlMs, now);
      forall c | c in conns && conns[c].role.Client? ensures conns[c].scopeKey in registry.workspaces {
        ClientIsNotIdle(r.scopes, conns[c].scopeKey, c, ttlMs, now);
      }
    }

    lemma ClientIsNotIdle(scopes: map<string, Scope>, key: string, c: Socket, ttlMs: int, now: int)
      requires key in scopes && c in scopes[key].clients
      ensures key in WithoutIdle(scopes, ttlMs, now)
    {
    }

    /** A client that asks to be upgraded has its scope looked up, before it is admitted or refused. */
    method LookUp(key: string, now: int)
      requires registry.Valid()
      modifies registry
      ensures registry.Extended()
      ensures View() == Put(old(View()), key, Looked(old(View()).scopes, key, now))
    {
      hide ConnectionRegistry.View, Looked;
      var state := registry.Look(key, now);
      OnlyScope(key);
    }

    /** One turn of the event loop: what the handlers do is the state machine's step, and the captured
        states stay the registered ones. */
    method Handle(e: Event)
      requires Valid() && Enabled(View(), e)
      modifies this, registry, registry.workspaces.Values
      ensures View() == Step(cfg, old(View()), e)
      ensures Valid()
    {
      hide IpsOk, AllJustified, ScopesOk, OpenDaemonsCurrent, ConnectionRegistry.View,
           OnConnect, OnClientMessage, OnDaemonMessage, OnBus, OnClosed, WithoutIdle;
      ghost var r := View();
      StepKeeps(cfg, r, e);
      match e {
        case Connect(ws, conn, generation, now) => RegisterConnection(ws, conn, generation, now);
        case Message(ws, f, allowed, now, slow) =>
          if conns[ws].role.Client? {
            OnClientFrame(ws, f, allowed, now, slow);
          } else {
            OnDaemonFrame(ws, conns[ws], f, allowed, now, slow);
          }
        case Bus(_, _, _, _, _, _, _, _) => RouteBusFrame(e);
        case LeaveOpen(ws) => CloseWithReason(ws);
        case Closed(ws, now) => OnClose(ws, now);
        case Prune(ttlMs, now) => PruneEmpty(ttlMs, now);
        case Upgrade(key, now) => LookUp(key, now);
      }
    }
  }
}
