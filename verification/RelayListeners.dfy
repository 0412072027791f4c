/** Who listens to a session-event channel, and who receives what is sent to it. */
module RelayListeners {
  import opened Basics
  import opened OrderedMap
  import opened JsStrings
  import opened RelaySpec
  import opened RelayProofs
  import opened RelayTheorems
  import opened RelayDelivery

  function SubscribersAt(scopes: map<string, Scope>, key: string): map<string, set<Socket>> {
    if key in scopes then scopes[key].subscribers else map[]
  }

  /** The sockets subscribed to a channel of a scope. */
  function ListenersAt(r: Relay, key: string, channel: string): set<Socket> {
    var subscribers := SubscribersAt(r.scopes, key);
    if channel in subscribers then subscribers[channel] else {}
  }

  // ----- what changes no subscription -----

  ghost predicate SameSubscribers(a: map<string, Scope>, b: map<string, Scope>) {
    forall key :: SubscribersAt(a, key) == SubscribersAt(b, key)
  }

  lemma SameTransitive(a: map<string, Scope>, b: map<string, Scope>, c: map<string, Scope>)
    requires SameSubscribers(a, b) && SameSubscribers(b, c)
    ensures SameSubscribers(a, c)
  {
  }

  lemma SameItself(a: map<string, Scope>)
    ensures SameSubscribers(a, a)
  {
  }

  lemma PutSame(r: Relay, key: string, s: Scope)
    requires s.subscribers == SubscribersAt(r.scopes, key)
    ensures SameSubscribers(r.scopes, Put(r, key, s).scopes)
  {
  }

  lemma FetchedSubscribers(scopes: map<string, Scope>, key: string, workspaceId: string, runtimeTargetId: Option<string>, now: int)
    ensures var s := Fetched(scopes, key, workspaceId, runtimeTargetId, now);
            && s.subscribers == SubscribersAt(scopes, key)
            && PruneAll(s.(lastActivityAt := now), now).subscribers == SubscribersAt(scopes, key)
  {
    hide Keep;
  }

  lemma RouteKexSame(cfg: Config, r: Relay, workspaceId: string, key: string, f: Frame, now: int, slow: set<Socket>)
    requires f.kind.KexResponse?
    ensures SameSubscribers(r.scopes, RouteKexResponse(cfg, r, workspaceId, key, f, now, slow).scopes)
  {
    hide Keep, Track, Delete, Trim, RelaySpec.Hand, Put, SameSubscribers, Recipient;
    var id, sid := Trim(f.kind.requestId), Trim(f.kind.sessionId);
    var s := PruneKex(Fetched(r.scopes, key, workspaceId, None, now), now);
    FetchedSubscribers(r.scopes, key, workspaceId, None, now);
    SameItself(r.scopes);
    PutSame(r, key, s);
    if id in s.kex.data {
      var o := s.kex.data[id];
      var t := s.(kex := Delete(s.kex, id), sessions := Track(s.sessions, sid, o.(createdAt := now), cfg.maxSessionOwnerTrack));
      PutSame(r, key, t);
      var x := KexAnswered(key, id, sid, o, Recipient(r, slow, o));
      SendingKeepsScopes(Log(Put(r, key, t), x), t, key, slow, o, 0, x);
    }
  }

  lemma RoutePairingSame(r: Relay, workspaceId: string, key: string, f: Frame, now: int, slow: set<Socket>)
    requires f.kind.PairingResponse?
    ensures SameSubscribers(r.scopes, RoutePairingResponse(r, workspaceId, key, f, now, slow).scopes)
  {
    hide Keep, Delete, Trim, RelaySpec.Hand, Put, SameSubscribers, Recipient;
    var id := Trim(f.kind.requestId);
    var s := PrunePairing(Fetched(r.scopes, key, workspaceId, None, now), now);
    FetchedSubscribers(r.scopes, key, workspaceId, None, now);
    PutSame(r, key, s);
    if id in s.pairing.data {
      var o := s.pairing.data[id];
      var t := s.(pairing := Delete(s.pairing, id));
      PutSame(r, key, t);
      var x := PairingAnswered(key, id, o, Recipient(r, slow, o));
      SendingKeepsScopes(Log(Put(r, key, t), x), t, key, slow, o, 0, x);
    }
  }

  lemma RouteSessionSame(r: Relay, workspaceId: string, key: string, sid: string, now: int, slow: set<Socket>)
    ensures SameSubscribers(r.scopes, RouteSessionOwned(r, workspaceId, key, sid, now, slow).scopes)
    ensures SameSubscribers(r.scopes, RouteSessionEvent(r, workspaceId, key, sid, now, slow).scopes)
  {
    hide Keep, Trim, RelaySpec.Hand, Put, SameSubscribers, Recipient;
    var f := Fetched(r.scopes, key, workspaceId, None, now);
    var s := PruneSessions(f, now);
    FetchedSubscribers(r.scopes, key, workspaceId, None, now);
    SameItself(r.scopes);
    PutSame(r, key, f);
    PutSame(r, key, s);
    if sid in s.sessions.data {
      var o := s.sessions.data[sid];
      var to := Recipient(r, slow, o);
      var r2 := if to.Some? then Log(Put(r, key, s), SessionDelivered(key, sid, to.value)) else Put(r, key, s);
      SendingKeepsScopes(r2, s, key, slow, o, 0, NoLocalDaemon(0));
    }
  }

  lemma TrackSame(cfg: Config, r: Relay, key: string, f: Frame, o: Owner, slow: set<Socket>)
    requires key in r.scopes
    ensures var t := TrackRequest(cfg, r, key, f, o);
            && SameSubscribers(r.scopes, t.scopes)
            && (HasOpenDaemon(t, key) ==> ToScopeDaemon(t, key, slow).scopes == t.scopes)
  {
    hide Track, Trim;
  }

  lemma DaemonSame(cfg: Config, r: Relay, ws: Socket, conn: Conn, f: Frame, allowed: bool, now: int, slow: set<Socket>)
    ensures SameSubscribers(r.scopes, OnDaemonMessage(cfg, r, ws, conn, f, allowed, now, slow).scopes)
  {
    hide RouteKexResponse, RoutePairingResponse, RouteSessionOwned, SameSubscribers;
    SameItself(r.scopes);
    match f.kind {
      case PairingResponse(_) => RoutePairingSame(r, conn.workspaceId, conn.scopeKey, f, now, slow);
      case KexResponse(_, _) => RouteKexSame(cfg, r, conn.workspaceId, conn.scopeKey, f, now, slow);
      case E2ee(sid) => RouteSessionSame(r, conn.workspaceId, conn.scopeKey, sid, now, slow);
      case KeyUpdate(sid) => RouteSessionSame(r, conn.workspaceId, conn.scopeKey, sid, now, slow);
      case _ =>
    }
  }

  lemma DaemonBusSame(cfg: Config, r: Relay, e: Event, key: string)
    requires e.Bus?
    ensures SameSubscribers(r.scopes, OnDaemonBusFrame(cfg, r, e, key).scopes)
  {
    hide RouteKexResponse, RoutePairingResponse, RouteSessionOwned, RouteSessionEvent, SameSubscribers;
    SameItself(r.scopes);
    match e.frame.kind {
      case PairingResponse(_) => RoutePairingSame(r, e.workspaceId, key, e.frame, e.now, e.slow);
      case KexResponse(_, _) => RouteKexSame(cfg, r, e.workspaceId, key, e.frame, e.now, e.slow);
      case E2ee(sid) => RouteSessionSame(r, e.workspaceId, key, sid, e.now, e.slow);
      case KeyUpdate(sid) => RouteSessionSame(r, e.workspaceId, key, sid, e.now, e.slow);
      case _ =>
    }
    if e.frame.relayChannel.Some? {
      RouteSessionSame(r, e.workspaceId, key, e.frame.relayChannel.value, e.now, e.slow);
    }
  }

  lemma BusSame(cfg: Config, r: Relay, e: Event)
    requires e.Bus?
    ensures SameSubscribers(r.scopes, OnBus(cfg, r, e).scopes)
  {
    hide PruneAll, Fetched, TrackRequest, ToScopeDaemon, OnDaemonBusFrame, SameSubscribers, Put;
    SameItself(r.scopes);
    if e.runtimeTargetId != "" {
      var key := RuntimeScopeKey(e.workspaceId, Some(e.runtimeTargetId));
      FetchedSubscribers(r.scopes, key, e.workspaceId, Some(e.runtimeTargetId), e.now);
      var s := PruneAll(Fetched(r.scopes, key, e.workspaceId, Some(e.runtimeTargetId), e.now).(lastActivityAt := e.now), e.now);
      var r1 := Put(r, key, s);
      PutSame(r, key, s);
      assert key in r1.scopes by {
        PutHas(r, key, s);
      }
      TrackSame(cfg, r1, key, e.frame, Owner(None, Some(e.sourceRelayId), e.now), e.slow);
      DaemonBusSame(cfg, r1, e, key);
      SameTransitive(r.scopes, r1.scopes, OnDaemonBusFrame(cfg, r1, e, key).scopes);
      SameTransitive(r.scopes, r1.scopes, TrackRequest(cfg, r1, key, e.frame, Owner(None, Some(e.sourceRelayId), e.now)).scopes);
    }
  }

  lemma PutHas(r: Relay, key: string, s: Scope)
    ensures key in Put(r, key, s).scopes
  {
  }

  lemma ConnectSame(r: Relay, ws: Socket, conn: Conn, generation: Option<nat>, now: int)
    ensures SameSubscribers(r.scopes, OnConnect(r, ws, conn, generation, now).scopes)
  {
    hide PruneAll, Fetched, AdjustIp, Put, SameSubscribers;
    var key := conn.scopeKey;
    FetchedSubscribers(r.scopes, key, conn.workspaceId, conn.runtimeTargetId, now);
    var s := PruneAll(Fetched(r.scopes, key, conn.workspaceId, conn.runtimeTargetId, now).(lastActivityAt := now), now);
    PutSame(r, key, s);
    PutTwice(r, key, s, s.(clients := s.clients + {ws}));
    PutSame(r, key, s.(clients := s.clients + {ws}));
    var t := s.(daemon := Some(ws), generation := if generation.Some? then generation else s.generation, kex := Empty(), sessions := Empty());
    PutTwice(r, key, s, t);
    PutSame(r, key, t);
  }

  lemma PutTwice(r: Relay, key: string, s: Scope, t: Scope)
    ensures Put(Put(r, key, s), key, t) == Put(r, key, t)
  {
    assert r.scopes[key := s][key := t] == r.scopes[key := t];
  }

  // ----- one step -----

  /** The client asks for the channel, or to be left alone by it, and is authorized for it. */
  predicate Asks(cfg: Config, r: Relay, e: Event, c: Socket, channel: string) {
    && e.Message? && e.ws == c && c in r.conns && r.conns[c].role.Client? && r.conns[c].clientScope.SessionEventsScope?
    && e.frame.bytes <= cfg.maxFrameBytes && channel != "" && channel in r.conns[c].channels
    && match e.frame.kind {
         case Subscribe(raw) => Trim(raw) == channel
         case Unsubscribe(raw) => Trim(raw) == channel
         case _ => false
       }
  }

  lemma SameListeners(r: Relay, t: Relay, key: string, channel: string)
    requires SameSubscribers(r.scopes, t.scopes)
    ensures ListenersAt(t, key, channel) == ListenersAt(r, key, channel)
  {
  }

  lemma ClientSame(cfg: Config, r: Relay, ws: Socket, conn: Conn, f: Frame, allowed: bool, now: int, slow: set<Socket>)
    requires conn.scopeKey in r.scopes
    requires !SessionEventClient(f) || !conn.clientScope.SessionEventsScope? || f.bytes > cfg.maxFrameBytes
    ensures SameSubscribers(r.scopes, OnClientMessage(cfg, r, ws, conn, f, allowed, now, slow).scopes)
  {
    hide PruneAll, TrackRequest, ToScopeDaemon, SameSubscribers, PassesGates;
    var key := conn.scopeKey;
    SameItself(r.scopes);
    var s := PruneAll(r.scopes[key], now);
    PruneSubscribers(r.scopes[key], now);
    var r1 := Put(r, key, s);
    PutSame(r, key, s);
    var o := Owner(Some(ws), None, now);
    TrackSame(cfg, r1, key, f, o, slow);
    SameTransitive(r.scopes, r1.scopes, TrackRequest(cfg, r1, key, f, o).scopes);
  }

  lemma PruneSubscribers(s: Scope, now: int)
    ensures PruneAll(s, now).subscribers == s.subscribers
  {
  }

  lemma PutListeners(r: Relay, k: string, subscribers: map<string, set<Socket>>, s: Scope, key: string, channel: string)
    ensures ListenersAt(Put(r, k, s.(subscribers := subscribers)), key, channel) ==
            if key != k then ListenersAt(r, key, channel) else if channel in subscribers then subscribers[channel] else {}
  {
  }

  lemma SendingListeners(r: Relay, slow: set<Socket>, to: Socket, k: string, name: string, group: set<Socket>, key: string, channel: string)
    ensures ListenersAt(AfterSend(r, slow, to), key, channel) == ListenersAt(r, key, channel)
    ensures ListenersAt(Fan(r, k, name, group, slow), key, channel) == ListenersAt(r, key, channel)
    ensures ListenersAt(CloseSocket(r, to), key, channel) == ListenersAt(r, key, channel)
  {
  }

  /** What a client's session-event frame does to a channel. */
  lemma SessionEventListeners(r: Relay, ws: Socket, conn: Conn, f: Frame, allowed: bool, now: int, slow: set<Socket>, key: string, channel: string)
    requires SessionEventClient(f)
    ensures var here := key == conn.scopeKey && channel != "" && channel in conn.channels && Trim(f.kind.channel) == channel;
            ListenersAt(OnSessionEventFrame(r, ws, conn, f, allowed, now, slow), key, channel) ==
            if here && f.kind.Subscribe? then ListenersAt(r, key, channel) + {ws}
            else if here && f.kind.Unsubscribe? then ListenersAt(r, key, channel) - {ws}
            else ListenersAt(r, key, channel)
  {
    hide Trim, Fetched, AfterSend, Fan, CloseSocket, Put, ListenersAt;
    var k, name := conn.scopeKey, Trim(f.kind.channel);
    var s := Fetched(r.scopes, k, conn.workspaceId, None, now);
    FetchedSubscribers(r.scopes, k, conn.workspaceId, None, now);
    FetchedListeners(r, k, s, name);
    FetchedListeners(r, k, s, channel);
    var rest := Subscribers(s, name) - {ws};
    var subscribers :=
      if f.kind.Subscribe? then s.subscribers[name := Subscribers(s, name) + {ws}]
      else if f.kind.ViewerPresence? then s.subscribers
      else if rest == {} then s.subscribers - {name} else s.subscribers[name := rest];
    var t := Put(r, k, s.(subscribers := subscribers));
    PutListeners(r, k, subscribers, s, key, channel);
    SendingListeners(r, slow, ws, k, name, rest, key, channel);
    SendingListeners(t, slow, ws, k, name, rest, key, channel);
    assert s.(subscribers := s.subscribers) == s;
  }

  lemma FetchedListeners(r: Relay, key: string, s: Scope, channel: string)
    requires s.subscribers == SubscribersAt(r.scopes, key)
    ensures Subscribers(s, channel) == ListenersAt(r, key, channel)
  {
  }

  lemma CloseListeners(r: Relay, ws: Socket, now: int, key: string, channel: string)
    requires ws in r.conns
    ensures ListenersAt(OnClosed(r, ws, now), key, channel) ==
            if r.conns[ws].role.Client? && key == r.conns[ws].scopeKey then ListenersAt(r, key, channel) - {ws} else ListenersAt(r, key, channel)
  {
    hide Keep, AdjustIp;
  }

  /** Listeners are connected clients of the scope, so an idle scope has none. */
  lemma ListenersConnected(cfg: Config, r: Relay, key: string, channel: string, c: Socket)
    requires Inv(cfg, r) && c in ListenersAt(r, key, channel)
    ensures c in r.conns && r.conns[c].role.Client? && r.conns[c].scopeKey == key && key in r.scopes && c in r.scopes[key].clients
  {
    hide Inv, Logged, TrackerOk;
    InvScope(cfg, r, key);
  }

  /** Who listens to a channel after a step: those who did, and who subscribes, without who unsubscribes or closes. */
  lemma ListenersStep(cfg: Config, r: Relay, e: Event, key: string, channel: string, c: Socket)
    requires Inv(cfg, r)
    ensures c in ListenersAt(Step(cfg, r, e), key, channel) <==>
            if Asks(cfg, r, e, c, channel) && r.conns[c].scopeKey == key then e.frame.kind.Subscribe?
            else c in ListenersAt(r, key, channel) && !(e.Closed? && e.ws == c)
  {
    hide Inv, ListenersAt, OnConnect, OnDaemonMessage, OnClientMessage, OnBus, OnClosed, WithoutIdle, Looked, SameSubscribers, Trim;
    var t := Step(cfg, r, e);
    if c in ListenersAt(r, key, channel) {
      ListenersConnected(cfg, r, key, channel, c);
    }
    SameItself(r.scopes);
    if !Enabled(r, e) || e.LeaveOpen? {
      SameListeners(r, t, key, channel);
    } else {
      match e {
        case Connect(ws, conn, generation, now) =>
          ConnectSame(r, ws, conn, generation, now);
          SameListeners(r, t, key, channel);
        case Message(ws, f, allowed, now, slow) =>
          if r.conns[ws].role.Daemon? {
            DaemonSame(cfg, r, ws, r.conns[ws], f, allowed, now, slow);
            SameListeners(r, t, key, channel);
          } else {
            InvClient(cfg, r, ws);
            ClientListeners(cfg, r, e, key, channel, c);
          }
        case Bus(_, _, _, _, _, _, _, _) =>
          BusSame(cfg, r, e);
          SameListeners(r, t, key, channel);
        case LeaveOpen(_) =>
        case Closed(ws, now) => CloseListeners(r, ws, now, key, channel);
        case Prune(ttlMs, now) => PruneListeners(r, ttlMs, now, key, channel, c);
        case Upgrade(k, now) =>
          LookSame(r, k, now);
          SameListeners(r, t, key, channel);
      }
    }
  }

  lemma LookSame(r: Relay, key: string, now: int)
    ensures SameSubscribers(r.scopes, Put(r, key, Looked(r.scopes, key, now)).scopes)
  {
  }

  lemma PruneListeners(r: Relay, ttlMs: int, now: int, key: string, channel: string, c: Socket)
    requires c in ListenersAt(r, key, channel) ==> key in r.scopes && c in r.scopes[key].clients
    ensures c in ListenersAt(r.(scopes := WithoutIdle(r.scopes, ttlMs, now)), key, channel) <==> c in ListenersAt(r, key, channel)
  {
  }

  lemma ClientListeners(cfg: Config, r: Relay, e: Event, key: string, channel: string, c: Socket)
    requires e.Message? && e.ws in r.conns && r.conns[e.ws].role.Client? && r.conns[e.ws].scopeKey in r.scopes
    ensures c in ListenersAt(OnClientMessage(cfg, r, e.ws, r.conns[e.ws], e.frame, e.allowed, e.now, e.slow), key, channel) <==>
            if Asks(cfg, r, e, c, channel) && r.conns[c].scopeKey == key then e.frame.kind.Subscribe?
            else c in ListenersAt(r, key, channel)
  {
    hide Trim, ListenersAt, OnSessionEventFrame, SameSubscribers;
    var conn := r.conns[e.ws];
    if !SessionEventClient(e.frame) || !conn.clientScope.SessionEventsScope? || e.frame.bytes > cfg.maxFrameBytes {
      ClientSame(cfg, r, e.ws, conn, e.frame, e.allowed, e.now, e.slow);
      SameListeners(r, OnClientMessage(cfg, r, e.ws, conn, e.frame, e.allowed, e.now, e.slow), key, channel);
    } else {
      SessionEventListeners(r, e.ws, conn, e.frame, e.allowed, e.now, e.slow, key, channel);
    }
  }

  // ----- who is connected -----

  lemma RouteKexConns(cfg: Config, r: Relay, workspaceId: string, key: string, f: Frame, now: int, slow: set<Socket>)
    requires f.kind.KexResponse?
    ensures RouteKexResponse(cfg, r, workspaceId, key, f, now, slow).conns == r.conns
  {
    hide Keep, Track, Delete, Trim, Fetched, Recipient;
  }

  lemma RoutePairingConns(r: Relay, workspaceId: string, key: string, f: Frame, now: int, slow: set<Socket>)
    requires f.kind.PairingResponse?
    ensures RoutePairingResponse(r, workspaceId, key, f, now, slow).conns == r.conns
  {
    hide Keep, Delete, Trim, Fetched, Recipient;
  }

  lemma RouteSessionConns(r: Relay, workspaceId: string, key: string, text: string, now: int, slow: set<Socket>)
    ensures RouteSessionOwned(r, workspaceId, key, text, now, slow).conns == r.conns
    ensures RouteSessionEvent(r, workspaceId, key, text, now, slow).conns == r.conns
  {
    hide Keep, Trim, Fetched, Recipient, Subscribers;
  }

  lemma RoutingConns(cfg: Config, r: Relay, workspaceId: string, key: string, f: Frame, text: string, now: int, slow: set<Socket>)
    ensures f.kind.KexResponse? ==> RouteKexResponse(cfg, r, workspaceId, key, f, now, slow).conns == r.conns
    ensures f.kind.PairingResponse? ==> RoutePairingResponse(r, workspaceId, key, f, now, slow).conns == r.conns
    ensures RouteSessionOwned(r, workspaceId, key, text, now, slow).conns == r.conns
    ensures RouteSessionEvent(r, workspaceId, key, text, now, slow).conns == r.conns
  {
    hide *;
    RouteSessionConns(r, workspaceId, key, text, now, slow);
    if f.kind.KexResponse? {
      RouteKexConns(cfg, r, workspaceId, key, f, now, slow);
    } else if f.kind.PairingResponse? {
      RoutePairingConns(r, workspaceId, key, f, now, slow);
    }
  }

  lemma MessageConns(cfg: Config, r: Relay, ws: Socket, conn: Conn, f: Frame, allowed: bool, now: int, slow: set<Socket>)
    ensures OnDaemonMessage(cfg, r, ws, conn, f, allowed, now, slow).conns == r.conns
    ensures conn.scopeKey in r.scopes ==> OnClientMessage(cfg, r, ws, conn, f, allowed, now, slow).conns == r.conns
  {
    hide RouteKexResponse, RoutePairingResponse, RouteSessionOwned, Track, Trim, PruneAll, Fetched, Subscribers;
    RoutingConns(cfg, r, conn.workspaceId, conn.scopeKey, f, if f.kind.E2ee? || f.kind.KeyUpdate? then f.kind.sessionId else "", now, slow);
  }

  lemma BusConns(cfg: Config, r: Relay, e: Event)
    requires e.Bus?
    ensures OnBus(cfg, r, e).conns == r.conns
  {
    hide RouteKexResponse, RoutePairingResponse, RouteSessionOwned, RouteSessionEvent, Track, Trim, PruneAll, Fetched;
    var key := RuntimeScopeKey(e.workspaceId, Some(e.runtimeTargetId));
    var r1 := Put(r, key, PruneAll(Fetched(r.scopes, key, e.workspaceId, Some(e.runtimeTargetId), e.now).(lastActivityAt := e.now), e.now));
    RoutingConns(cfg, r1, e.workspaceId, key, e.frame, if e.frame.kind.E2ee? || e.frame.kind.KeyUpdate? then e.frame.kind.sessionId else "", e.now, e.slow);
    if e.frame.relayChannel.Some? {
      RoutingConns(cfg, r1, e.workspaceId, key, e.frame, e.frame.relayChannel.value, e.now, e.slow);
    }
  }

  lemma StepConns(cfg: Config, r: Relay, e: Event, c: Socket)
    ensures var t := Step(cfg, r, e);
            && (c in r.conns && !(e.Closed? && e.ws == c) ==> c in t.conns && t.conns[c] == r.conns[c])
            && (c !in r.conns && c in t.conns ==> e.Connect?)
            && (e.Closed? && e.ws == c ==> c !in t.conns)
  {
    hide OnDaemonMessage, OnClientMessage, OnBus, PruneAll, Fetched, RemoveClient, ClearDaemon, AdjustIp, WithoutIdle, Looked;
    if e.Message? && e.ws in r.conns {
      MessageConns(cfg, r, e.ws, r.conns[e.ws], e.frame, e.allowed, e.now, e.slow);
    } else if e.Bus? {
      BusConns(cfg, r, e);
    }
  }

  // ----- runs -----

  /** Of all that c said about the channel since it connected, the last was to subscribe. */
  ghost predicate WantsIn(cfg: Config, states: seq<Relay>, events: seq<Event>, n: nat, c: Socket, channel: string)
    requires |states| == |events| + 1 && n <= |events|
  {
    n > 0 &&
    var e := events[n - 1];
    if Asks(cfg, states[n - 1], e, c, channel) then e.frame.kind.Subscribe?
    else !(e.Closed? && e.ws == c) && WantsIn(cfg, states, events, n - 1, c, channel)
  }

  lemma {:induction false} WantsInConnected(cfg: Config, states: seq<Relay>, events: seq<Event>, n: nat, c: Socket, channel: string)
    requires |states| == |events| + 1 && IsRun(cfg, states, events) && n <= |events| && WantsIn(cfg, states, events, n, c, channel)
    ensures c in states[n].conns
  {
    hide Step;
    if !Asks(cfg, states[n - 1], events[n - 1], c, channel) {
      WantsInConnected(cfg, states, events, n - 1, c, channel);
    }
    assert states[n - 1 + 1] == Step(cfg, states[n - 1], events[n - 1]);
    StepConns(cfg, states[n - 1], events[n - 1], c);
  }

  /** In every run, a channel of a scope has as listeners exactly the clients of the scope that want in. */
  lemma {:induction false} ListenersExactly(cfg: Config, states: seq<Relay>, events: seq<Event>, n: nat, key: string, channel: string, c: Socket)
    requires ValidConfig(cfg) && |states| == |events| + 1 && IsRun(cfg, states, events) && n <= |events|
    ensures c in ListenersAt(states[n], key, channel) <==>
            WantsIn(cfg, states, events, n, c, channel) && c in states[n].conns && states[n].conns[c].scopeKey == key
  {
    hide Inv, Step, ListenersAt;
    if n == 0 {
      NoListeners(key, channel);
    } else {
      var r, e := states[n - 1], events[n - 1];
      EveryRunKeeps(cfg, states, events, n - 1);
      ListenersExactly(cfg, states, events, n - 1, key, channel, c);
      assert states[n - 1 + 1] == Step(cfg, r, e);
      ListenersStep(cfg, r, e, key, channel, c);
      StepConns(cfg, r, e, c);
      if WantsIn(cfg, states, events, n - 1, c, channel) {
        WantsInConnected(cfg, states, events, n - 1, c, channel);
      }
    }
  }

  lemma NoListeners(key: string, channel: string)
    ensures ListenersAt(INITIAL, key, channel) == {}
  {
  }

  // ----- who receives -----

  /** A session-event relay frame from the bus goes to exactly the open listeners of its channel that are not
      slow, and the slow ones are closed. */
  lemma RelayFrameExactly(cfg: Config, r: Relay, e: Event, key: string)
    requires e.Bus? && FromDaemon(cfg, r, e, key) && e.frame.relayChannel.Some? && !e.frame.kind.KexResponse? && !e.frame.kind.PairingResponse?
    ensures var channel := Trim(e.frame.relayChannel.value); var to := ListenersAt(r, key, channel) * r.open; var t := Step(cfg, r, e);
            if channel == "" then t.log == r.log && t.open == r.open
            else t.log == r.log + [Fanned(key, channel, to - e.slow)] && t.open == r.open - (to * e.slow)
  {
    hide Trim, PruneAll, Fetched;
    BusStep(cfg, r, e, key);
    FetchedSubscribers(r.scopes, key, e.workspaceId, Some(e.runtimeTargetId), e.now);
    FetchedSubscribers(Touched(r, e, key).scopes, key, e.workspaceId, None, e.now);
  }

  /** Presence of a viewer within its limits goes to exactly the other open listeners of a channel that it is
      authorized for; without authorization to no one. */
  lemma PresenceExactly(cfg: Config, states: seq<Relay>, events: seq<Event>, n: nat)
    requires ValidConfig(cfg) && |states| == |events| + 1 && IsRun(cfg, states, events) && n < |events|
    requires var r, e := states[n], events[n];
             && e.Message? && e.ws in r.conns && r.conns[e.ws].role.Client? && r.conns[e.ws].clientScope.SessionEventsScope?
             && e.frame.kind.ViewerPresence? && e.frame.bytes <= cfg.maxFrameBytes
    ensures var r, e, t := states[n], events[n], states[n + 1]; var conn := r.conns[e.ws]; var channel := Trim(e.frame.kind.channel);
            var to := (ListenersAt(r, conn.scopeKey, channel) - {e.ws}) * r.open;
            if channel == "" || channel !in conn.channels then t.log == r.log && t.open == r.open - ({e.ws} * e.slow)
            else if !e.allowed then t.log == r.log && t.open == r.open - {e.ws}
            else t.log == r.log + [Fanned(conn.scopeKey, channel, to - e.slow)] && t.open == r.open - (to * e.slow)
  {
    hide Inv, Trim, Fetched;
    var r, e := states[n], events[n];
    EveryRunKeeps(cfg, states, events, n);
    InvClient(cfg, r, e.ws);
    FetchedSubscribers(r.scopes, r.conns[e.ws].scopeKey, r.conns[e.ws].workspaceId, None, e.now);
    assert states[n + 1] == Step(cfg, r, e);
  }
}
