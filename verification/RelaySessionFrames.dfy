/** Who receives the end-to-end encrypted and key-update frames of a session, over whole runs. */
module RelaySessionFrames {
  import opened Basics
  import opened OrderedMap
  import opened JsStrings
  import opened RelaySpec
  import opened RelayProofs
  import opened RelayDelivery
  import opened RelayTheorems

  function Receivers(x: Effect): set<Socket> {
    match x
    case KexAnswered(_, _, _, _, to) => if to.Some? then {to.value} else {}
    case PairingAnswered(_, _, _, to) => if to.Some? then {to.value} else {}
    case SessionDelivered(_, _, to) => {to}
    case Fanned(_, _, group) => group
    case ToDaemon(_, to) => {to}
    case _ => {}
  }

  /** The sockets that a part of the log says were sent to. */
  function Reached(l: seq<Effect>): set<Socket> {
    if l == [] then {} else Reached(l[..|l| - 1]) + Receivers(l[|l| - 1])
  }

  /** The local client whose key exchange last bound the session. */
  function Binder(log: seq<Effect>, key: string, sid: string): set<Socket> {
    var o := LatestBind(log, key, sid);
    if o.Some? && o.value.clientWs.Some? then {o.value.clientWs.value} else {}
  }

  /** The frame is on the bus and also names a session-event channel. */
  predicate Fans(e: Event) {
    e.Bus? && e.runtimeTargetId != "" && e.allowed && e.frame.relayChannel.Some? && Trim(e.frame.relayChannel.value) != ""
  }

  /** The open subscribers of that channel that are not slow. */
  function Listeners(r: Relay, e: Event, key: string): set<Socket>
    requires Fans(e)
  {
    (if key in r.scopes then Subscribers(r.scopes[key], Trim(e.frame.relayChannel.value)) else {}) * r.open - e.slow
  }

  /** The frame passes the gates, and it is its owner that is looked up. */
  predicate GoesToOwner(cfg: Config, r: Relay, e: Event, key: string) {
    FromDaemon(cfg, r, e, key) && (e.Bus? ==> e.frame.relayChannel.None?)
  }

  /** The client that the session tracker says the frame belongs to, if it can receive it. */
  function Holder(r: Relay, key: string, sid: string, now: int, slow: set<Socket>): set<Socket> {
    if Pending(SessionsOf(r, key), sid, SESSION_OWNER_TTL_MS, now) && Reachable(r, slow, SessionsOf(r, key).data[sid])
    then {SessionsOf(r, key).data[sid].clientWs.value} else {}
  }

  lemma ReachedOne(x: Effect)
    ensures Reached([x]) == Receivers(x)
  {
    assert [x][..0] == [];
  }

  lemma {:induction false} PublishedReachNone(l: seq<Effect>)
    requires forall i :: 0 <= i < |l| ==> l[i].Published?
    ensures Reached(l) == {}
  {
    if l != [] {
      PublishedReachNone(l[..|l| - 1]);
    }
  }

  lemma NothingNew(l: seq<Effect>)
    ensures Reached(l[|l|..]) == {}
  {
  }

  // ----- one step -----

  lemma OwnedReaches(r: Relay, workspaceId: string, key: string, sid: string, now: int, slow: set<Socket>)
    ensures var l := RouteSessionOwned(r, workspaceId, key, sid, now, slow).log;
            r.log <= l && Reached(l[|r.log|..]) == Holder(r, key, sid, now, slow)
  {
    hide Keep, RelaySpec.Hand, Fetched, Reached, Pending;
    KeptAre(SessionsOf(r, key), SESSION_OWNER_TTL_MS, now);
    FetchedTrackers(r, key, workspaceId, now);
    var s := PruneSessions(Fetched(r.scopes, key, workspaceId, None, now), now);
    var r1 := Put(r, key, s);
    if sid in s.sessions.data {
      var o := s.sessions.data[sid];
      var to := Recipient(r, slow, o);
      var r2 := if to.Some? then Log(r1, SessionDelivered(key, sid, to.value)) else r1;
      HandOnly(r2, s, key, slow, o);
      var l := RelaySpec.Hand(r2, s, key, slow, o).log;
      if to.Some? {
        assert l[|r.log|..] == [SessionDelivered(key, sid, to.value)];
        ReachedOne(SessionDelivered(key, sid, to.value));
      } else {
        PublishedReachNone(l[|r.log|..]);
      }
      assert r.log <= l;
    } else {
      NothingNew(r.log);
    }
  }

  lemma EventReaches(r: Relay, e: Event, key: string)
    requires Fans(e)
    ensures var l := RouteSessionEvent(r, e.workspaceId, key, e.frame.relayChannel.value, e.now, e.slow).log;
            r.log <= l && Reached(l[|r.log|..]) == Listeners(r, e, key)
  {
    hide Reached, Trim;
    var channel := Trim(e.frame.relayChannel.value);
    var s := Fetched(r.scopes, key, e.workspaceId, None, e.now);
    var x := Fanned(key, channel, (Subscribers(s, channel) * r.open) - e.slow);
    ReachedOne(x);
    assert RouteSessionEvent(r, e.workspaceId, key, e.frame.relayChannel.value, e.now, e.slow).log[|r.log|..] == [x];
  }

  lemma TouchedHolder(r: Relay, e: Event, key: string, sid: string)
    requires e.Bus?
    ensures Holder(Touched(r, e, key), key, sid, e.now, e.slow) == Holder(r, key, sid, e.now, e.slow)
  {
    hide Pending, SessionsOf, Touched;
    TouchedPending(r, e, key, sid);
  }

  lemma TouchedListeners(r: Relay, e: Event, key: string)
    requires Fans(e)
    ensures Listeners(Touched(r, e, key), e, key) == Listeners(r, e, key)
  {
    hide Keep, Trim;
  }

  /** Whom a session frame reaches in one step: the listeners of its channel, or the one client that the
      session tracker holds. */
  lemma FrameReaches(cfg: Config, r: Relay, e: Event, key: string, sid: string)
    requires CarriesSession(r.conns, e, key, sid)
    ensures var l := Step(cfg, r, e).log;
            && r.log <= l
            && Reached(l[|r.log|..]) == if Fans(e) then Listeners(r, e, key)
                                        else if GoesToOwner(cfg, r, e, key) then Holder(r, key, sid, e.now, e.slow) else {}
  {
    hide RouteSessionOwned, Reached, Holder, OnBus, Fans;
    NothingNew(r.log);
    if e.Message? {
      OwnedReaches(r, r.conns[e.ws].workspaceId, key, sid, e.now, e.slow);
      NotOnBus(e);
    } else {
      BusFrameReaches(cfg, r, e, key, sid);
    }
  }

  lemma NotOnBus(e: Event)
    requires !e.Bus?
    ensures !Fans(e)
  {
  }

  lemma BusFrameReaches(cfg: Config, r: Relay, e: Event, key: string, sid: string)
    requires e.Bus? && CarriesSession(r.conns, e, key, sid)
    ensures var l := OnBus(cfg, r, e).log;
            && r.log <= l
            && Reached(l[|r.log|..]) == if Fans(e) then Listeners(r, e, key)
                                        else if GoesToOwner(cfg, r, e, key) then Holder(r, key, sid, e.now, e.slow) else {}
  {
    hide RouteSessionOwned, RouteSessionEvent, Reached, Holder, PruneAll, Fetched, Trim, Listeners;
    NothingNew(r.log);
    if e.runtimeTargetId != "" && e.allowed {
      var r1 := Touched(r, e, key);
      if e.frame.relayChannel.None? {
        TouchedHolder(r, e, key, sid);
        OwnedReaches(r1, e.workspaceId, key, sid, e.now, e.slow);
      } else if Fans(e) {
        TouchedListeners(r, e, key);
        EventReaches(r1, e, key);
      } else {
        NoChannel(r1, e.workspaceId, key, e.frame.relayChannel.value, e.now, e.slow);
      }
    }
  }

  lemma NoChannel(r: Relay, workspaceId: string, key: string, raw: string, now: int, slow: set<Socket>)
    requires Trim(raw) == ""
    ensures RouteSessionEvent(r, workspaceId, key, raw, now, slow) == r
  {
  }

  // ----- runs -----

  /** The session tracker holds the client that last bound the session. */
  lemma HolderIsBinder(cfg: Config, r: Relay, key: string, sid: string, now: int, slow: set<Socket>)
    requires Inv(cfg, r)
    ensures Holder(r, key, sid, now, slow) <= Binder(r.log, key, sid)
  {
    hide Inv, TrackersOk, MembersOk, LatestBind, LatestKex, LatestPairing;
    if key in r.scopes {
      InvScope(cfg, r, key);
    }
  }

  /** In every run, an end-to-end encrypted or key-update frame from the daemon side reaches no one but the
      client that last bound its session exactly if it came by websocket or names no session-event channel, or
      no one else listens to that channel. */
  lemma SessionFrameReachesBinderExactly(cfg: Config, states: seq<Relay>, events: seq<Event>, m: nat, key: string, sid: string)
    requires ValidConfig(cfg) && IsRun(cfg, states, events) && m < |events|
    requires CarriesSession(states[m].conns, events[m], key, sid)
    ensures var e, before, after := events[m], states[m].log, states[m + 1].log;
            && before <= after
            && (Reached(after[|before|..]) <= Binder(before, key, sid) <==>
                  !Fans(e) || Listeners(states[m], e, key) <= Binder(before, key, sid))
  {
    hide Step, Inv, Reached, Binder, Listeners, Fans, Holder, LatestBind;
    EveryRunKeeps(cfg, states, events, m);
    FrameReaches(cfg, states[m], events[m], key, sid);
    HolderIsBinder(cfg, states[m], key, sid, events[m].now, events[m].slow);
  }

  /** The binder asked for the key exchange itself: by its own frame, in the same scope, under the id that
      the response which bound the session answers. */
  lemma BinderAsked(cfg: Config, states: seq<Relay>, events: seq<Event>, n: nat, key: string, sid: string, c: Socket)
    returns (j: nat, i: nat, m: nat)
    requires ValidConfig(cfg) && IsRun(cfg, states, events) && n <= |events| && c in Binder(states[n].log, key, sid)
    ensures var log := states[n].log;
            && j < |log| && i < j && Binds(log[j], key, sid) && (forall l :: j < l < |log| ==> !Binds(log[l], key, sid))
            && log[i] == KexTracked(key, log[j].id, log[j].owner)
            && m < n && |states[m].log| <= i < |states[m + 1].log| && Asked(states[m], events[m], key, true, log[j].id, c)
  {
    hide EffectFrom, Asked, Inv, Step, LatestKex, LatestPairing, LatestBind, Trim;
    var log := states[n].log;
    j := LatestBindAt(log, key, sid);
    RunJustified(cfg, states, events, n, j);
    i := LatestKexAt(log[..j], key, log[j].id);
    assert log[..j][i] == log[i];
    m := StepOfEffect(cfg, states, events, n, i);
    AskedFrom(states[m], events[m], key, log[j].id, log[j].owner, c);
  }

  // ----- ids with white space -----

  /** In every run, sessions are bound under trimmed ids. */
  lemma SessionIdsTrimmed(cfg: Config, states: seq<Relay>, events: seq<Event>, n: nat, key: string, sid: string)
    requires ValidConfig(cfg) && IsRun(cfg, states, events) && n <= |events|
    requires sid in SessionsOf(states[n], key).data
    ensures Trim(sid) == sid
  {
    hide EffectFrom, Inv, Step, LatestKex, LatestPairing, LatestBind, Trim, TrackersOk, MembersOk;
    EveryRunKeeps(cfg, states, events, n);
    InvScope(cfg, states[n], key);
    var j := LatestBindAt(states[n].log, key, sid);
    var m := StepOfEffect(cfg, states, events, n, j);
    AnsweredFrom(states[m].conns, states[m].open, events[m], states[n].log[j]);
    TrimTwice(events[m].frame.kind.sessionId);
  }

  lemma AnsweredFrom(conns: map<Socket, Conn>, open: set<Socket>, e: Event, x: Effect)
    requires x.KexAnswered? && EffectFrom(conns, open, e, x)
    ensures Responds(e, x.id, x.sessionId)
  {
  }

  /** A daemon of the scope answers a pending request and so binds a session. */
  predicate BindsByResponse(cfg: Config, r: Relay, e: Event, key: string) {
    && FromDaemon(cfg, r, e, key)
    && e.frame.kind.KexResponse? && Trim(e.frame.kind.requestId) != "" && Trim(e.frame.kind.sessionId) != ""
    && Pending(KexOf(r, key), Trim(e.frame.kind.requestId), REQUEST_TTL_MS, e.now)
  }

  function AskerOf(cfg: Config, r: Relay, e: Event, key: string): Owner
    requires BindsByResponse(cfg, r, e, key)
  {
    KexOf(r, key).data[Trim(e.frame.kind.requestId)]
  }

  /** A frame of the session passes the gates in time, and the owner can receive it. */
  predicate Follows(cfg: Config, r: Relay, e: Event, key: string, sid: string, o: Owner, boundAt: int) {
    && CarriesSession(r.conns, e, key, sid) && GoesToOwner(cfg, r, e, key)
    && e.now - boundAt <= SESSION_OWNER_TTL_MS && Reachable(r, e.slow, o)
  }

  /** In every run, once a daemon's response has bound a session, a frame under the id as the response gave
      it reaches the client exactly if that id has no white space at its ends. */
  lemma EchoedSessionId(cfg: Config, states: seq<Relay>, events: seq<Event>, n: nat, key: string)
    requires ValidConfig(cfg) && |states| == |events| + 1 && n + 1 < |events| && IsRun(cfg, states, events)
    requires BindsByResponse(cfg, states[n], events[n], key)
    requires Follows(cfg, states[n + 1], events[n + 1], key, events[n].frame.kind.sessionId,
                     AskerOf(cfg, states[n], events[n], key), events[n].now)
    ensures states[n + 1].log <= states[n + 2].log
    ensures var raw := events[n].frame.kind.sessionId;
            Reached(states[n + 2].log[|states[n + 1].log|..])
            == if Trim(raw) == raw then {AskerOf(cfg, states[n], events[n], key).clientWs.value} else {}
  {
    hide Trim, Reached, Step;
    var raw := events[n].frame.kind.sessionId;
    assert states[n + 1] == Step(cfg, states[n], events[n]);
    KexResponseStep(cfg, states[n], events[n], key);
    assert states[n + 1 + 1] == Step(cfg, states[n + 1], events[n + 1]);
    FrameReaches(cfg, states[n + 1], events[n + 1], key, raw);
    if raw in SessionsOf(states[n + 1], key).data {
      SessionIdsTrimmed(cfg, states, events, n + 1, key, raw);
    }
  }

  /** A response that binds the session " s" binds "s", and the daemon's next frame for " s" reaches no one. */
  lemma SpacedIdIsMissed(cfg: Config, states: seq<Relay>, events: seq<Event>, n: nat, key: string)
    requires ValidConfig(cfg) && |states| == |events| + 1 && n + 1 < |events| && IsRun(cfg, states, events)
    requires BindsByResponse(cfg, states[n], events[n], key) && events[n].frame.kind.sessionId == " s"
    requires Follows(cfg, states[n + 1], events[n + 1], key, " s", AskerOf(cfg, states[n], events[n], key), events[n].now)
    ensures "s" in SessionsOf(states[n + 1], key).data && " s" !in SessionsOf(states[n + 1], key).data
    ensures states[n + 1].log <= states[n + 2].log && Reached(states[n + 2].log[|states[n + 1].log|..]) == {}
  {
    hide Trim, Reached, Step, Follows;
    SpaceTrimmed();
    assert states[n + 1] == Step(cfg, states[n], events[n]);
    KexResponseStep(cfg, states[n], events[n], key);
    if " s" in SessionsOf(states[n + 1], key).data {
      SessionIdsTrimmed(cfg, states, events, n + 1, key, " s");
    }
    EchoedSessionId(cfg, states, events, n, key);
  }

  lemma SpaceTrimmed()
    ensures Trim(" s") == "s"
  {
    hide TrimEnd;
    assert TrimStart(" s") == TrimStart("s") == "s";
    TrimProper("s");
  }

  // ----- a frame with two shapes -----

  const CHANNEL: string := "agent-session:a"
  const VIEWER: Conn := Conn(Client, "w", Some("t"), "w:t", "ip", SessionEventsScope, {CHANNEL}, None)
  const ARRIVAL: Event := Connect(1, VIEWER, None, 0)
  const SUBSCRIPTION: Event := Message(1, Frame(Subscribe(CHANNEL), None, None, 0), true, 0, {})

  /** On the bus, an end-to-end encrypted frame of the session that is also a session-event relay frame. */
  function TwoShapes(sid: string): Event {
    Bus("w", "t", "relay-b", false, Frame(E2ee(sid), Some(CHANNEL), Some(NoiseIk), 0), true, 0, {})
  }

  lemma ViewerArrives(cfg: Config)
    ensures var r := Step(cfg, INITIAL, ARRIVAL);
            && r.conns == map[1 := VIEWER] && r.open == {1} && r.log == []
            && "w:t" in r.scopes && r.scopes["w:t"].subscribers == map[]
  {
    hide Keep, AdjustIp;
    assert RuntimeScopeKey("w", Some("t")) == "w:t";
  }

  lemma ViewerListens(cfg: Config)
    ensures var r := Step(cfg, Step(cfg, INITIAL, ARRIVAL), SUBSCRIPTION);
            "w:t" in r.scopes && Subscribers(r.scopes["w:t"], CHANNEL) == {1} && r.open == {1} && r.log == []
  {
    hide OnConnect, Trim;
    TrimProper(CHANNEL);
    ViewerArrives(cfg);
  }

  /** A client that never exchanged keys subscribes to a channel and receives a session's frame, in a run in
      which no one bound the session. */
  lemma ViewerReceivesSessionFrame(cfg: Config, sid: string) returns (states: seq<Relay>)
    ensures IsRun(cfg, states, [ARRIVAL, SUBSCRIPTION, TwoShapes(sid)])
    ensures CarriesSession(states[2].conns, TwoShapes(sid), "w:t", sid)
    ensures states[2].log == [] && Binder(states[2].log, "w:t", sid) == {} && Reached(states[3].log) == {1}
  {
    hide Step, Reached, Trim;
    ViewerListens(cfg);
    var r2 := Step(cfg, Step(cfg, INITIAL, ARRIVAL), SUBSCRIPTION);
    states := [INITIAL, Step(cfg, INITIAL, ARRIVAL), r2, Step(cfg, r2, TwoShapes(sid))];
    assert RuntimeScopeKey("w", Some("t")) == "w:t";
    TrimProper(CHANNEL);
    FrameReaches(cfg, r2, TwoShapes(sid), "w:t", sid);
    assert states[3].log[0..] == states[3].log;
  }
}
