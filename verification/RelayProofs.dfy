/** What every run of the relay keeps, and what follows for delivery, daemons and connection counts. */
module RelayProofs {
  import opened Basics
  import opened OrderedMap
  import opened JsStrings
  import opened RelaySpec

  // ----- the invariant of one scope -----

  function Size(t: Tracker): nat { |t.data| }

  ghost predicate TrackerOk(t: Tracker, clients: set<Socket>, max: nat) {
    && Size(t) <= max
    && forall id :: id in t.data && t.data[id].clientWs.Some? ==> t.data[id].clientWs.value in clients
  }

  ghost predicate SubscribersOk(subscribers: map<string, set<Socket>>, clients: set<Socket>) {
    forall ch :: ch in subscribers ==> subscribers[ch] != {} && subscribers[ch] <= clients
  }

  ghost predicate TrackersOk(cfg: Config, s: Scope) {
    && TrackerOk(s.kex, s.clients, cfg.maxPairingRequestTrack)
    && TrackerOk(s.pairing, s.clients, cfg.maxPairingRequestTrack)
    && TrackerOk(s.sessions, s.clients, cfg.maxSessionOwnerTrack)
    && SubscribersOk(s.subscribers, s.clients)
  }

  ghost predicate MembersOk(conns: map<Socket, Conn>, key: string, s: Scope) {
    && (forall c :: c in s.clients ==> c in conns && conns[c].role.Client? && conns[c].scopeKey == key)
    && (s.daemon.Some? ==>
          s.daemon.value in conns && conns[s.daemon.value].role.Daemon? && conns[s.daemon.value].scopeKey == key)
  }

  // ----- the log -----

  /** The owner of the latest request with this id, unless it has been answered since. */
  function LatestKex(log: seq<Effect>, key: string, id: string): Option<Owner> {
    if log == [] then None
    else match log[|log| - 1]
      case KexTracked(k, i, o) => if k == key && i == id then Some(o) else LatestKex(log[..|log| - 1], key, id)
      case KexAnswered(k, i, _, _, _) => if k == key && i == id then None else LatestKex(log[..|log| - 1], key, id)
      case _ => LatestKex(log[..|log| - 1], key, id)
  }

  function LatestPairing(log: seq<Effect>, key: string, id: string): Option<Owner> {
    if log == [] then None
    else match log[|log| - 1]
      case PairingTracked(k, i, o) => if k == key && i == id then Some(o) else LatestPairing(log[..|log| - 1], key, id)
      case PairingAnswered(k, i, _, _) => if k == key && i == id then None else LatestPairing(log[..|log| - 1], key, id)
      case _ => LatestPairing(log[..|log| - 1], key, id)
  }

  /** The owner of the key exchange that last bound this session id. */
  function LatestBind(log: seq<Effect>, key: string, sid: string): Option<Owner> {
    if log == [] then None
    else match log[|log| - 1]
      case KexAnswered(k, _, s, o, _) => if k == key && s == sid then Some(o) else LatestBind(log[..|log| - 1], key, sid)
      case _ => LatestBind(log[..|log| - 1], key, sid)
  }

  predicate SameClient(a: Option<Owner>, b: Owner) {
    a.Some? && a.value.clientWs == b.clientWs && a.value.sourceRelayId == b.sourceRelayId
  }

  /** What the trackers hold is what the log says was asked last. */
  ghost predicate Logged(log: seq<Effect>, key: string, s: Scope) {
    && (forall id :: id in s.kex.data ==> LatestKex(log, key, id) == Some(s.kex.data[id]))
    && (forall id :: id in s.pairing.data ==> LatestPairing(log, key, id) == Some(s.pairing.data[id]))
    && (forall sid :: sid in s.sessions.data ==> SameClient(LatestBind(log, key, sid), s.sessions.data[sid]))
  }

  ghost predicate Justified(log: seq<Effect>, e: Effect) {
    match e
    case KexAnswered(k, id, _, o, to) => LatestKex(log, k, id) == Some(o) && (to.Some? ==> to == o.clientWs)
    case PairingAnswered(k, id, o, to) => LatestPairing(log, k, id) == Some(o) && (to.Some? ==> to == o.clientWs)
    case SessionDelivered(k, sid, to) => LatestBind(log, k, sid).Some? && LatestBind(log, k, sid).value.clientWs == Some(to)
    case _ => true
  }

  ghost predicate AllJustified(log: seq<Effect>) {
    forall i :: 0 <= i < |log| ==> Justified(log[..i], log[i])
  }

  lemma LatestAppend(log: seq<Effect>, e: Effect, key: string, id: string)
    ensures LatestKex(log + [e], key, id) ==
            if e.KexTracked? && e.scope == key && e.id == id then Some(e.owner)
            else if e.KexAnswered? && e.scope == key && e.id == id then None else LatestKex(log, key, id)
    ensures LatestPairing(log + [e], key, id) ==
            if e.PairingTracked? && e.scope == key && e.id == id then Some(e.owner)
            else if e.PairingAnswered? && e.scope == key && e.id == id then None else LatestPairing(log, key, id)
    ensures LatestBind(log + [e], key, id) ==
            if e.KexAnswered? && e.scope == key && e.sessionId == id then Some(e.owner) else LatestBind(log, key, id)
  {
    assert (log + [e])[..|log|] == log;
  }

  lemma JustifiedAppend(log: seq<Effect>, e: Effect)
    requires AllJustified(log) && Justified(log, e)
    ensures AllJustified(log + [e])
  {
    var l := log + [e];
    forall i | 0 <= i < |l| ensures Justified(l[..i], l[i]) {
      if i < |log| {
        assert l[..i] == log[..i];
      } else {
        assert l[..i] == log;
      }
    }
  }

  // ----- the invariant of the relay -----

  function ConnsAt(conns: map<Socket, Conn>, ip: string): set<Socket> {
    set c | c in conns && conns[c].ip == ip
  }

  ghost predicate IpsOk(conns: map<Socket, Conn>, ips: map<string, int>) {
    forall ip :: (if ip in ips then ips[ip] else 0) == |ConnsAt(conns, ip)| && (ip in ips ==> ips[ip] > 0)
  }

  /** Every open daemon is the current daemon of its scope. */
  ghost predicate OpenDaemonsCurrent(conns: map<Socket, Conn>, scopes: map<string, Scope>, open: set<Socket>) {
    forall d :: d in open ==>
      && d in conns
      && (conns[d].role.Daemon? ==> conns[d].scopeKey in scopes && scopes[conns[d].scopeKey].daemon == Some(d))
  }

  ghost predicate ScopeOk(cfg: Config, conns: map<Socket, Conn>, log: seq<Effect>, key: string, s: Scope) {
    TrackersOk(cfg, s) && MembersOk(conns, key, s) && Logged(log, key, s)
  }

  ghost predicate ScopesOk(cfg: Config, conns: map<Socket, Conn>, log: seq<Effect>, scopes: map<string, Scope>) {
    forall key :: key in scopes ==> ScopeOk(cfg, conns, log, key, scopes[key])
  }

  /** The scope a live client captured is still registered, with the client in it. */
  ghost predicate ClientsHaveScopes(conns: map<Socket, Conn>, scopes: map<string, Scope>) {
    forall c :: c in conns && conns[c].role.Client? ==>
      conns[c].scopeKey in scopes && c in scopes[conns[c].scopeKey].clients
  }

  ghost predicate Inv(cfg: Config, r: Relay) {
    && ClientsHaveScopes(r.conns, r.scopes)
    && ScopesOk(cfg, r.conns, r.log, r.scopes)
    && OpenDaemonsCurrent(r.conns, r.scopes, r.open)
    && IpsOk(r.conns, r.ips)
    && AllJustified(r.log)
  }

  // ----- tracker lemmas -----

  lemma SizeIsOrder(t: Tracker)
    ensures Size(t) == |t.order|
  {
    DistinctCount(t.order);
    assert |t.data.Keys| == |t.data|;
  }

  lemma SubTrackerOk(t: Tracker, u: Tracker, clients: set<Socket>, max: nat)
    requires TrackerOk(t, clients, max) && SubTracker(u, t)
    ensures TrackerOk(u, clients, max)
  {
    assert u.data.Keys <= t.data.Keys;
    SubsetSize(u.data.Keys, t.data.Keys);
    assert |u.data.Keys| == |u.data| && |t.data.Keys| == |t.data|;
  }

  lemma TrackData(t: Tracker, id: string, o: Owner, max: nat)
    requires max > 0
    ensures Size(Track(t, id, o, max)) <= max
    ensures id in Track(t, id, o, max).data && Track(t, id, o, max).data[id] == o
    ensures forall i :: i in Track(t, id, o, max).data && i != id ==> i in t.data && Track(t, id, o, max).data[i] == t.data[i]
  {
    hide EvictTo, Set, Distinct;
    var e := EvictTo(t, max - 1);
    EvictOrder(t, max - 1);
    SizeIsOrder(e);
    assert Track(t, id, o, max).data == e.data[id := o];
    AddSize(e.data, id, o);
  }

  lemma TrackOk(t: Tracker, id: string, o: Owner, clients: set<Socket>, max: nat)
    requires max > 0 && TrackerOk(t, clients, max)
    requires o.clientWs.Some? ==> o.clientWs.value in clients
    ensures TrackerOk(Track(t, id, o, max), clients, max)
  {
    TrackData(t, id, o, max);
  }

  lemma AddSize<K, V>(m: map<K, V>, k: K, v: V)
    ensures |m[k := v]| <= |m| + 1
  {
    assert m[k := v].Keys == m.Keys + {k};
    assert |m[k := v].Keys| == |m[k := v]| && |m.Keys| == |m|;
  }

  // ----- changes that keep the invariant -----

  /** The scope has the members the registry has for the key: none, if there is no entry. */
  predicate SameMembers(scopes: map<string, Scope>, key: string, s: Scope) {
    if key in scopes then s.clients == scopes[key].clients && s.daemon == scopes[key].daemon
    else s.clients == {} && s.daemon.None?
  }

  lemma PutMembers(conns: map<Socket, Conn>, scopes: map<string, Scope>, open: set<Socket>, key: string, s: Scope)
    requires ClientsHaveScopes(conns, scopes) && OpenDaemonsCurrent(conns, scopes, open) && SameMembers(scopes, key, s)
    ensures ClientsHaveScopes(conns, scopes[key := s]) && OpenDaemonsCurrent(conns, scopes[key := s], open)
  {
  }

  lemma PutKeeps(cfg: Config, r: Relay, key: string, s: Scope)
    requires Inv(cfg, r) && ScopeOk(cfg, r.conns, r.log, key, s) && SameMembers(r.scopes, key, s)
    ensures Inv(cfg, Put(r, key, s))
  {
    PutMembers(r.conns, r.scopes, r.open, key, s);
    assert ScopesOk(cfg, r.conns, r.log, r.scopes[key := s]);
  }

  lemma ShrinkOpenKeeps(cfg: Config, r: Relay, open: set<Socket>)
    requires Inv(cfg, r) && open <= r.open
    ensures Inv(cfg, r.(open := open))
  {
    assert OpenDaemonsCurrent(r.conns, r.scopes, open);
  }

  /** An effect that neither asks nor answers. */
  predicate Passive(e: Effect) {
    e.SessionDelivered? || e.Published? || e.Fanned? || e.ToDaemon? || e.NoLocalDaemon?
  }

  lemma LoggedAppend(log: seq<Effect>, e: Effect, key: string, s: Scope)
    requires Logged(log, key, s)
    requires Passive(e) || e.scope != key
    ensures Logged(log + [e], key, s)
  {
    forall id | id in s.kex.data ensures LatestKex(log + [e], key, id) == Some(s.kex.data[id]) {
      LatestAppend(log, e, key, id);
    }
    forall id | id in s.pairing.data ensures LatestPairing(log + [e], key, id) == Some(s.pairing.data[id]) {
      LatestAppend(log, e, key, id);
    }
    forall id | id in s.sessions.data ensures SameClient(LatestBind(log + [e], key, id), s.sessions.data[id]) {
      LatestAppend(log, e, key, id);
    }
  }

  lemma ScopesAppend(cfg: Config, conns: map<Socket, Conn>, log: seq<Effect>, scopes: map<string, Scope>, e: Effect)
    requires ScopesOk(cfg, conns, log, scopes)
    ensures forall key :: key in scopes && (Passive(e) || e.scope != key) ==> ScopeOk(cfg, conns, log + [e], key, scopes[key])
  {
    forall key | key in scopes && (Passive(e) || e.scope != key)
      ensures ScopeOk(cfg, conns, log + [e], key, scopes[key])
    {
      assert ScopeOk(cfg, conns, log, key, scopes[key]);
      LoggedAppend(log, e, key, scopes[key]);
    }
  }

  lemma LogKeeps(cfg: Config, r: Relay, e: Effect)
    requires Inv(cfg, r) && Passive(e) && Justified(r.log, e)
    ensures Inv(cfg, Log(r, e))
  {
    JustifiedAppend(r.log, e);
    ScopesAppend(cfg, r.conns, r.log, r.scopes, e);
    assert ScopesOk(cfg, r.conns, r.log + [e], r.scopes);
  }

  /** Changing a scope and logging why, in one. */
  lemma PutLogKeeps(cfg: Config, r: Relay, key: string, s: Scope, e: Effect)
    requires Inv(cfg, r) && !Passive(e) && e.scope == key && Justified(r.log, e)
    requires ScopeOk(cfg, r.conns, r.log + [e], key, s) && SameMembers(r.scopes, key, s)
    ensures Inv(cfg, Log(Put(r, key, s), e))
  {
    JustifiedAppend(r.log, e);
    PutMembers(r.conns, r.scopes, r.open, key, s);
    ScopesAppend(cfg, r.conns, r.log, r.scopes, e);
    assert ScopesOk(cfg, r.conns, r.log + [e], r.scopes[key := s]);
  }

  // ----- scopes on the way -----

  lemma FetchedOk(cfg: Config, r: Relay, key: string, workspaceId: string, runtimeTargetId: Option<string>, now: int)
    requires Inv(cfg, r)
    ensures var s := Fetched(r.scopes, key, workspaceId, runtimeTargetId, now);
            ScopeOk(cfg, r.conns, r.log, key, s) && SameMembers(r.scopes, key, s)
  {
    hide Inv, ScopeOk;
    if key in r.scopes {
      InvScope(cfg, r, key);
      RelabelOk(cfg, r.conns, r.log, key, r.scopes[key], workspaceId, runtimeTargetId, r.scopes[key].lastActivityAt);
    } else {
      NewScopeOk(cfg, r.conns, r.log, key, workspaceId, runtimeTargetId, now);
    }
  }

  lemma NewScopeOk(cfg: Config, conns: map<Socket, Conn>, log: seq<Effect>, key: string,
                   workspaceId: string, runtimeTargetId: Option<string>, now: int)
    ensures ScopeOk(cfg, conns, log, key, NewScope(workspaceId, runtimeTargetId, now))
  {
  }

  lemma RelabelOk(cfg: Config, conns: map<Socket, Conn>, log: seq<Effect>, key: string, s: Scope,
                  workspaceId: string, runtimeTargetId: Option<string>, at: int)
    requires ScopeOk(cfg, conns, log, key, s)
    ensures ScopeOk(cfg, conns, log, key, s.(workspaceId := workspaceId, runtimeTargetId := runtimeTargetId, lastActivityAt := at))
  {
  }

  ghost predicate SubTracker(t: Tracker, u: Tracker) {
    forall id :: id in t.data ==> id in u.data && t.data[id] == u.data[id]
  }

  /** Forgetting tracker entries keeps a scope sound. */
  lemma ForgetOk(cfg: Config, conns: map<Socket, Conn>, log: seq<Effect>, key: string, s: Scope, t: Scope)
    requires ScopeOk(cfg, conns, log, key, s)
    requires t.clients == s.clients && t.daemon == s.daemon && t.subscribers == s.subscribers
    requires SubTracker(t.kex, s.kex) && SubTracker(t.pairing, s.pairing) && SubTracker(t.sessions, s.sessions)
    ensures ScopeOk(cfg, conns, log, key, t)
  {
    SubTrackerOk(s.kex, t.kex, s.clients, cfg.maxPairingRequestTrack);
    SubTrackerOk(s.pairing, t.pairing, s.clients, cfg.maxPairingRequestTrack);
    SubTrackerOk(s.sessions, t.sessions, s.clients, cfg.maxSessionOwnerTrack);
  }

  lemma PruneAllOk(cfg: Config, conns: map<Socket, Conn>, log: seq<Effect>, key: string, s: Scope, now: int)
    requires ScopeOk(cfg, conns, log, key, s)
    ensures ScopeOk(cfg, conns, log, key, PruneAll(s, now))
    ensures PruneAll(s, now).clients == s.clients && PruneAll(s, now).daemon == s.daemon
  {
    ForgetOk(cfg, conns, log, key, s, PruneAll(s, now));
  }

  lemma AfterSendKeeps(cfg: Config, r: Relay, slow: set<Socket>, to: Socket)
    requires Inv(cfg, r)
    ensures Inv(cfg, AfterSend(r, slow, to))
  {
    ShrinkOpenKeeps(cfg, r, r.open - {to});
  }

  lemma HandKeeps(cfg: Config, r: Relay, s: Scope, key: string, slow: set<Socket>, o: Owner)
    requires Inv(cfg, r)
    ensures Inv(cfg, Hand(r, s, key, slow, o))
  {
    if LocalOpen(r, o) {
      AfterSendKeeps(cfg, r, slow, o.clientWs.value);
    } else if NonEmpty(o.sourceRelayId) {
      LogKeeps(cfg, r, Published(key, o.sourceRelayId.value));
    }
  }

  lemma InvScope(cfg: Config, r: Relay, key: string)
    requires Inv(cfg, r) && key in r.scopes
    ensures ScopeOk(cfg, r.conns, r.log, key, r.scopes[key])
  {
  }

  lemma InvClient(cfg: Config, r: Relay, ws: Socket)
    requires Inv(cfg, r) && ws in r.conns && r.conns[ws].role.Client?
    ensures r.conns[ws].scopeKey in r.scopes && ws in r.scopes[r.conns[ws].scopeKey].clients
  {
  }

  /** A response to a tracked request is justified by the log. */
  lemma AnswerJustified(cfg: Config, r: Relay, key: string, s: Scope, slow: set<Socket>)
    requires ScopeOk(cfg, r.conns, r.log, key, s)
    ensures forall id, sid :: id in s.kex.data ==>
              Justified(r.log, KexAnswered(key, id, sid, s.kex.data[id], Recipient(r, slow, s.kex.data[id])))
    ensures forall id :: id in s.pairing.data ==>
              Justified(r.log, PairingAnswered(key, id, s.pairing.data[id], Recipient(r, slow, s.pairing.data[id])))
    ensures forall sid :: sid in s.sessions.data && Recipient(r, slow, s.sessions.data[sid]).Some? ==>
              Justified(r.log, SessionDelivered(key, sid, Recipient(r, slow, s.sessions.data[sid]).value))
  {
  }

  // ----- requests and responses -----

  lemma KexLogged(log: seq<Effect>, key: string, s: Scope, id: string, o: Owner, max: nat)
    requires max > 0 && Logged(log, key, s)
    ensures Logged(log + [KexTracked(key, id, o)], key, s.(kex := Track(s.kex, id, o, max)))
  {
    var e := KexTracked(key, id, o);
    TrackData(s.kex, id, o, max);
    var s' := s.(kex := Track(s.kex, id, o, max));
    forall i | i in s'.kex.data ensures LatestKex(log + [e], key, i) == Some(s'.kex.data[i]) {
      LatestAppend(log, e, key, i);
    }
    forall i | i in s'.pairing.data ensures LatestPairing(log + [e], key, i) == Some(s'.pairing.data[i]) {
      LatestAppend(log, e, key, i);
    }
    forall i | i in s'.sessions.data ensures SameClient(LatestBind(log + [e], key, i), s'.sessions.data[i]) {
      LatestAppend(log, e, key, i);
    }
  }

  lemma PairingLogged(log: seq<Effect>, key: string, s: Scope, id: string, o: Owner, max: nat)
    requires max > 0 && Logged(log, key, s)
    ensures Logged(log + [PairingTracked(key, id, o)], key, s.(pairing := Track(s.pairing, id, o, max)))
  {
    var e := PairingTracked(key, id, o);
    TrackData(s.pairing, id, o, max);
    var s' := s.(pairing := Track(s.pairing, id, o, max));
    forall i | i in s'.kex.data ensures LatestKex(log + [e], key, i) == Some(s'.kex.data[i]) {
      LatestAppend(log, e, key, i);
    }
    forall i | i in s'.pairing.data ensures LatestPairing(log + [e], key, i) == Some(s'.pairing.data[i]) {
      LatestAppend(log, e, key, i);
    }
    forall i | i in s'.sessions.data ensures SameClient(LatestBind(log + [e], key, i), s'.sessions.data[i]) {
      LatestAppend(log, e, key, i);
    }
  }

  lemma TrackedOk(cfg: Config, conns: map<Socket, Conn>, log: seq<Effect>, key: string, s: Scope, id: string, o: Owner)
    requires ValidConfig(cfg) && ScopeOk(cfg, conns, log, key, s)
    requires o.clientWs.Some? ==> o.clientWs.value in s.clients
    ensures ScopeOk(cfg, conns, log + [KexTracked(key, id, o)], key, s.(kex := Track(s.kex, id, o, cfg.maxPairingRequestTrack)))
    ensures ScopeOk(cfg, conns, log + [PairingTracked(key, id, o)], key, s.(pairing := Track(s.pairing, id, o, cfg.maxPairingRequestTrack)))
  {
    hide Track;
    KexLogged(log, key, s, id, o, cfg.maxPairingRequestTrack);
    TrackOk(s.kex, id, o, s.clients, cfg.maxPairingRequestTrack);
    PairingLogged(log, key, s, id, o, cfg.maxPairingRequestTrack);
    TrackOk(s.pairing, id, o, s.clients, cfg.maxPairingRequestTrack);
  }

  lemma TrackRequestKeeps(cfg: Config, r: Relay, key: string, f: Frame, o: Owner)
    requires ValidConfig(cfg) && Inv(cfg, r) && key in r.scopes
    requires o.clientWs.Some? ==> o.clientWs.value in r.scopes[key].clients
    ensures Inv(cfg, TrackRequest(cfg, r, key, f, o))
    ensures TrackRequest(cfg, r, key, f, o).scopes.Keys == r.scopes.Keys
  {
    hide Inv, ScopeOk, Track, Trim;
    var s := r.scopes[key];
    InvScope(cfg, r, key);
    match f.kind {
      case KexInit(raw) =>
        var id := Trim(raw);
        TrackedOk(cfg, r.conns, r.log, key, s, id, o);
        PutLogKeeps(cfg, r, key, s.(kex := Track(s.kex, id, o, cfg.maxPairingRequestTrack)), KexTracked(key, id, o));
      case PairingRequest(raw) =>
        var id := Trim(raw);
        TrackedOk(cfg, r.conns, r.log, key, s, id, o);
        PutLogKeeps(cfg, r, key, s.(pairing := Track(s.pairing, id, o, cfg.maxPairingRequestTrack)), PairingTracked(key, id, o));
      case _ =>
    }
  }

  /** The scope after a key-exchange response: the request is used up, the session is bound to its owner. */
  function AnsweredKex(s: Scope, id: string, sid: string, o: Owner, max: nat): Scope {
    s.(kex := Delete(s.kex, id), sessions := Track(s.sessions, sid, o, max))
  }

  lemma AnsweredKexOk(cfg: Config, conns: map<Socket, Conn>, log: seq<Effect>, key: string, s: Scope,
                      id: string, sid: string, o: Owner, bound: Owner, to: Option<Socket>)
    requires ValidConfig(cfg) && ScopeOk(cfg, conns, log, key, s)
    requires id in s.kex.data && s.kex.data[id] == o && SameClient(Some(o), bound)
    ensures ScopeOk(cfg, conns, log + [KexAnswered(key, id, sid, o, to)], key, AnsweredKex(s, id, sid, bound, cfg.maxSessionOwnerTrack))
  {
    var e := KexAnswered(key, id, sid, o, to);
    var s' := AnsweredKex(s, id, sid, bound, cfg.maxSessionOwnerTrack);
    TrackOk(s.sessions, sid, bound, s.clients, cfg.maxSessionOwnerTrack);
    TrackData(s.sessions, sid, bound, cfg.maxSessionOwnerTrack);
    SubTrackerOk(s.kex, s'.kex, s.clients, cfg.maxPairingRequestTrack);
    forall i | i in s'.kex.data ensures LatestKex(log + [e], key, i) == Some(s'.kex.data[i]) {
      LatestAppend(log, e, key, i);
    }
    forall i | i in s'.pairing.data ensures LatestPairing(log + [e], key, i) == Some(s'.pairing.data[i]) {
      LatestAppend(log, e, key, i);
    }
    forall i | i in s'.sessions.data ensures SameClient(LatestBind(log + [e], key, i), s'.sessions.data[i]) {
      LatestAppend(log, e, key, i);
    }
  }

  lemma RouteKexKeeps(cfg: Config, r: Relay, workspaceId: string, key: string, f: Frame, now: int, slow: set<Socket>)
    requires ValidConfig(cfg) && Inv(cfg, r) && f.kind.KexResponse?
    ensures Inv(cfg, RouteKexResponse(cfg, r, workspaceId, key, f, now, slow))
  {
    hide Inv, ScopeOk, Justified, Track, Delete, Hand;
    var id := Trim(f.kind.requestId);
    var sid := Trim(f.kind.sessionId);
    var fetched := Fetched(r.scopes, key, workspaceId, None, now);
    FetchedOk(cfg, r, key, workspaceId, None, now);
    var s := PruneKex(fetched, now);
    ForgetOk(cfg, r.conns, r.log, key, fetched, s);
    PutKeeps(cfg, r, key, s);
    if id != "" && sid != "" && id in s.kex.data {
      AnswerKexKeeps(cfg, r, key, s, id, sid, now, slow);
    }
  }

  lemma AnswerKexKeeps(cfg: Config, r: Relay, key: string, s: Scope, id: string, sid: string, now: int, slow: set<Socket>)
    requires ValidConfig(cfg) && Inv(cfg, r) && ScopeOk(cfg, r.conns, r.log, key, s) && SameMembers(r.scopes, key, s)
    requires id in s.kex.data
    ensures var o := s.kex.data[id];
            var s' := AnsweredKex(s, id, sid, o.(createdAt := now), cfg.maxSessionOwnerTrack);
            Inv(cfg, Hand(Log(Put(r, key, s'), KexAnswered(key, id, sid, o, Recipient(r, slow, o))), s', key, slow, o))
  {
    hide Inv, ScopeOk, Justified, Track, Delete;
    var o := s.kex.data[id];
    var s' := AnsweredKex(s, id, sid, o.(createdAt := now), cfg.maxSessionOwnerTrack);
    var e := KexAnswered(key, id, sid, o, Recipient(r, slow, o));
    AnsweredKexOk(cfg, r.conns, r.log, key, s, id, sid, o, o.(createdAt := now), e.recipient);
    AnswerJustified(cfg, r, key, s, slow);
    PutLogKeeps(cfg, r, key, s', e);
    HandKeeps(cfg, Log(Put(r, key, s'), e), s', key, slow, o);
  }

  lemma AnsweredPairingOk(cfg: Config, conns: map<Socket, Conn>, log: seq<Effect>, key: string, s: Scope,
                          id: string, o: Owner, to: Option<Socket>)
    requires ScopeOk(cfg, conns, log, key, s) && id in s.pairing.data && s.pairing.data[id] == o
    ensures ScopeOk(cfg, conns, log + [PairingAnswered(key, id, o, to)], key, s.(pairing := Delete(s.pairing, id)))
  {
    var e := PairingAnswered(key, id, o, to);
    var s' := s.(pairing := Delete(s.pairing, id));
    SubTrackerOk(s.pairing, s'.pairing, s.clients, cfg.maxPairingRequestTrack);
    forall i | i in s'.kex.data ensures LatestKex(log + [e], key, i) == Some(s'.kex.data[i]) {
      LatestAppend(log, e, key, i);
    }
    forall i | i in s'.pairing.data ensures LatestPairing(log + [e], key, i) == Some(s'.pairing.data[i]) {
      LatestAppend(log, e, key, i);
    }
    forall i | i in s'.sessions.data ensures SameClient(LatestBind(log + [e], key, i), s'.sessions.data[i]) {
      LatestAppend(log, e, key, i);
    }
  }

  lemma RoutePairingKeeps(cfg: Config, r: Relay, workspaceId: string, key: string, f: Frame, now: int, slow: set<Socket>)
    requires Inv(cfg, r) && f.kind.PairingResponse?
    ensures Inv(cfg, RoutePairingResponse(r, workspaceId, key, f, now, slow))
  {
    hide Inv, ScopeOk;
    var id := Trim(f.kind.requestId);
    var fetched := Fetched(r.scopes, key, workspaceId, None, now);
    FetchedOk(cfg, r, key, workspaceId, None, now);
    var s := PrunePairing(fetched, now);
    ForgetOk(cfg, r.conns, r.log, key, fetched, s);
    PutKeeps(cfg, r, key, s);
    if id != "" && id in s.pairing.data {
      var o := s.pairing.data[id];
      var s' := s.(pairing := Delete(s.pairing, id));
      var e := PairingAnswered(key, id, o, Recipient(r, slow, o));
      AnsweredPairingOk(cfg, r.conns, r.log, key, s, id, o, e.recipient);
      AnswerJustified(cfg, r, key, s, slow);
      PutLogKeeps(cfg, r, key, s', e);
      HandKeeps(cfg, Log(Put(r, key, s'), e), s', key, slow, o);
    }
  }

  lemma RouteSessionKeeps(cfg: Config, r: Relay, workspaceId: string, key: string, sid: string, now: int, slow: set<Socket>)
    requires Inv(cfg, r)
    ensures Inv(cfg, RouteSessionOwned(r, workspaceId, key, sid, now, slow))
  {
    var fetched := Fetched(r.scopes, key, workspaceId, None, now);
    FetchedOk(cfg, r, key, workspaceId, None, now);
    var s := PruneSessions(fetched, now);
    ForgetOk(cfg, r.conns, r.log, key, fetched, s);
    PutKeeps(cfg, r, key, s);
    var r' := Put(r, key, s);
    if sid in s.sessions.data {
      var o := s.sessions.data[sid];
      var to := Recipient(r, slow, o);
      var r2 := if to.Some? then Log(r', SessionDelivered(key, sid, to.value)) else r';
      if to.Some? {
        LogKeeps(cfg, r', SessionDelivered(key, sid, to.value));
      }
      HandKeeps(cfg, r2, s, key, slow, o);
    }
  }

  lemma FanKeeps(cfg: Config, r: Relay, key: string, channel: string, group: set<Socket>, slow: set<Socket>)
    requires Inv(cfg, r)
    ensures Inv(cfg, Fan(r, key, channel, group, slow))
  {
    ShrinkOpenKeeps(cfg, r, r.open - (group * slow));
    LogKeeps(cfg, r.(open := r.open - (group * slow)), Fanned(key, channel, (group * r.open) - slow));
  }

  lemma RouteSessionEventKeeps(cfg: Config, r: Relay, workspaceId: string, key: string, raw: string, now: int, slow: set<Socket>)
    requires Inv(cfg, r)
    ensures Inv(cfg, RouteSessionEvent(r, workspaceId, key, raw, now, slow))
  {
    var s := Fetched(r.scopes, key, workspaceId, None, now);
    FetchedOk(cfg, r, key, workspaceId, None, now);
    PutKeeps(cfg, r, key, s);
    FanKeeps(cfg, Put(r, key, s), key, Trim(raw), Subscribers(s, Trim(raw)), slow);
  }

  // ----- events -----

  lemma SubscribeOk(cfg: Config, conns: map<Socket, Conn>, log: seq<Effect>, key: string, s: Scope, channel: string, ws: Socket)
    requires ScopeOk(cfg, conns, log, key, s) && ws in s.clients
    ensures ScopeOk(cfg, conns, log, key, s.(subscribers := s.subscribers[channel := Subscribers(s, channel) + {ws}]))
    ensures var rest := Subscribers(s, channel) - {ws};
            ScopeOk(cfg, conns, log, key, s.(subscribers := if rest == {} then s.subscribers - {channel} else s.subscribers[channel := rest]))
  {
  }

  lemma OnSessionEventKeeps(cfg: Config, r: Relay, ws: Socket, f: Frame, allowed: bool, now: int, slow: set<Socket>)
    requires Inv(cfg, r) && SessionEventClient(f) && ws in r.conns && r.conns[ws].role.Client?
    ensures Inv(cfg, OnSessionEventFrame(r, ws, r.conns[ws], f, allowed, now, slow))
  {
    hide Inv, ScopeOk;
    var conn := r.conns[ws];
    var key := conn.scopeKey;
    var channel := Trim(f.kind.channel);
    var s := Fetched(r.scopes, key, conn.workspaceId, None, now);
    FetchedOk(cfg, r, key, conn.workspaceId, None, now);
    AfterSendKeeps(cfg, r, slow, ws);
    ShrinkOpenKeeps(cfg, r, r.open - {ws});
    InvClient(cfg, r, ws);
    match f.kind {
      case Subscribe(_) =>
        var subscribers := s.subscribers[channel := Subscribers(s, channel) + {ws}];
        SubscribeOk(cfg, r.conns, r.log, key, s, channel, ws);
        PutKeeps(cfg, r, key, s.(subscribers := subscribers));
        AfterSendKeeps(cfg, Put(r, key, s.(subscribers := subscribers)), slow, ws);
      case Unsubscribe(_) =>
        var rest := Subscribers(s, channel) - {ws};
        var subscribers := if rest == {} then s.subscribers - {channel} else s.subscribers[channel := rest];
        SubscribeOk(cfg, r.conns, r.log, key, s, channel, ws);
        PutKeeps(cfg, r, key, s.(subscribers := subscribers));
        AfterSendKeeps(cfg, Put(r, key, s.(subscribers := subscribers)), slow, ws);
      case _ =>
        PutKeeps(cfg, r, key, s);
        FanKeeps(cfg, Put(r, key, s), key, channel, Subscribers(s, channel) - {ws}, slow);
    }
  }

  lemma ToScopeDaemonKeeps(cfg: Config, r: Relay, key: string, slow: set<Socket>)
    requires Inv(cfg, r) && HasOpenDaemon(r, key)
    ensures Inv(cfg, ToScopeDaemon(r, key, slow))
  {
    var d := r.scopes[key].daemon.value;
    LogKeeps(cfg, r, ToDaemon(key, d));
    AfterSendKeeps(cfg, r, slow, d);
    AfterSendKeeps(cfg, Log(r, ToDaemon(key, d)), slow, d);
  }

  lemma OnClientMessageKeeps(cfg: Config, r: Relay, ws: Socket, f: Frame, allowed: bool, now: int, slow: set<Socket>)
    requires ValidConfig(cfg) && Inv(cfg, r) && ws in r.conns && r.conns[ws].role.Client?
    ensures Inv(cfg, OnClientMessage(cfg, r, ws, r.conns[ws], f, allowed, now, slow))
  {
    hide Inv, ScopeOk;
    var conn := r.conns[ws];
    var key := conn.scopeKey;
    ShrinkOpenKeeps(cfg, r, r.open - {ws});
    AfterSendKeeps(cfg, r, slow, ws);
    if SessionEventClient(f) {
      OnSessionEventKeeps(cfg, r, ws, f, allowed, now, slow);
    } else {
      InvClient(cfg, r, ws);
      InvScope(cfg, r, key);
      var s := PruneAll(r.scopes[key], now);
      PruneAllOk(cfg, r.conns, r.log, key, r.scopes[key], now);
      PutKeeps(cfg, r, key, s);
      var r1 := Put(r, key, s);
      ShrinkOpenKeeps(cfg, r1, r1.open - {ws});
      TrackRequestKeeps(cfg, r1, key, f, Owner(Some(ws), None, now));
      var r2 := TrackRequest(cfg, r1, key, f, Owner(Some(ws), None, now));
      LogKeeps(cfg, r2, NoLocalDaemon(ws));
      if HasOpenDaemon(r2, key) {
        ToScopeDaemonKeeps(cfg, r2, key, slow);
      }
    }
  }

  lemma OnDaemonMessageKeeps(cfg: Config, r: Relay, ws: Socket, conn: Conn, f: Frame, allowed: bool, now: int, slow: set<Socket>)
    requires ValidConfig(cfg) && Inv(cfg, r)
    ensures Inv(cfg, OnDaemonMessage(cfg, r, ws, conn, f, allowed, now, slow))
  {
    hide Inv, RouteKexResponse, RoutePairingResponse, RouteSessionOwned;
    ShrinkOpenKeeps(cfg, r, r.open - {ws});
    match f.kind {
      case PairingResponse(_) => RoutePairingKeeps(cfg, r, conn.workspaceId, conn.scopeKey, f, now, slow);
      case KexResponse(_, _) => RouteKexKeeps(cfg, r, conn.workspaceId, conn.scopeKey, f, now, slow);
      case E2ee(sid) => RouteSessionKeeps(cfg, r, conn.workspaceId, conn.scopeKey, sid, now, slow);
      case KeyUpdate(sid) => RouteSessionKeeps(cfg, r, conn.workspaceId, conn.scopeKey, sid, now, slow);
      case _ =>
    }
  }

  /** The entry fetched, touched and pruned, as at a connect or a bus frame. */
  lemma TouchedOk(cfg: Config, r: Relay, key: string, workspaceId: string, runtimeTargetId: Option<string>, now: int)
    requires Inv(cfg, r)
    ensures var s := PruneAll(Fetched(r.scopes, key, workspaceId, runtimeTargetId, now).(lastActivityAt := now), now);
            ScopeOk(cfg, r.conns, r.log, key, s) && SameMembers(r.scopes, key, s)
  {
    var s := Fetched(r.scopes, key, workspaceId, runtimeTargetId, now);
    FetchedOk(cfg, r, key, workspaceId, runtimeTargetId, now);
    RelabelOk(cfg, r.conns, r.log, key, s, s.workspaceId, s.runtimeTargetId, now);
    PruneAllOk(cfg, r.conns, r.log, key, s.(lastActivityAt := now), now);
  }

  lemma OnBusKeeps(cfg: Config, r: Relay, e: Event)
    requires ValidConfig(cfg) && Inv(cfg, r) && e.Bus?
    ensures Inv(cfg, OnBus(cfg, r, e))
  {
    hide Inv, ScopeOk;
    if e.runtimeTargetId != "" {
      var key := RuntimeScopeKey(e.workspaceId, Some(e.runtimeTargetId));
      var s := PruneAll(Fetched(r.scopes, key, e.workspaceId, Some(e.runtimeTargetId), e.now).(lastActivityAt := e.now), e.now);
      TouchedOk(cfg, r, key, e.workspaceId, Some(e.runtimeTargetId), e.now);
      PutKeeps(cfg, r, key, s);
      var r1 := Put(r, key, s);
      if e.fromClient {
        var o := Owner(None, Some(e.sourceRelayId), e.now);
        TrackRequestKeeps(cfg, r1, key, e.frame, o);
        var r2 := TrackRequest(cfg, r1, key, e.frame, o);
        if HasOpenDaemon(r2, key) {
          ToScopeDaemonKeeps(cfg, r2, key, e.slow);
        }
      } else {
        OnBusDaemonFrameKeeps(cfg, r1, key, e);
      }
    }
  }

  lemma OnBusDaemonFrameKeeps(cfg: Config, r1: Relay, key: string, e: Event)
    requires ValidConfig(cfg) && Inv(cfg, r1) && e.Bus?
    ensures e.frame.kind.KexResponse? ==> Inv(cfg, RouteKexResponse(cfg, r1, e.workspaceId, key, e.frame, e.now, e.slow))
    ensures e.frame.kind.PairingResponse? ==> Inv(cfg, RoutePairingResponse(r1, e.workspaceId, key, e.frame, e.now, e.slow))
    ensures e.frame.kind.E2ee? || e.frame.kind.KeyUpdate? ==>
              Inv(cfg, RouteSessionOwned(r1, e.workspaceId, key, e.frame.kind.sessionId, e.now, e.slow))
    ensures e.frame.relayChannel.Some? ==>
              Inv(cfg, RouteSessionEvent(r1, e.workspaceId, key, e.frame.relayChannel.value, e.now, e.slow))
  {
    match e.frame.kind {
      case PairingResponse(_) => RoutePairingKeeps(cfg, r1, e.workspaceId, key, e.frame, e.now, e.slow);
      case KexResponse(_, _) => RouteKexKeeps(cfg, r1, e.workspaceId, key, e.frame, e.now, e.slow);
      case E2ee(sid) => RouteSessionKeeps(cfg, r1, e.workspaceId, key, sid, e.now, e.slow);
      case KeyUpdate(sid) => RouteSessionKeeps(cfg, r1, e.workspaceId, key, sid, e.now, e.slow);
      case _ =>
    }
    if e.frame.relayChannel.Some? {
      RouteSessionEventKeeps(cfg, r1, e.workspaceId, key, e.frame.relayChannel.value, e.now, e.slow);
    }
  }

  // ----- connects, closes and pruning -----

  lemma IpAdmitted(conns: map<Socket, Conn>, ips: map<string, int>, ws: Socket, conn: Conn)
    requires IpsOk(conns, ips) && ws !in conns
    ensures IpsOk(conns[ws := conn], AdjustIp(ips, conn.ip, 1))
  {
    forall ip ensures ConnsAt(conns[ws := conn], ip) == if ip == conn.ip then ConnsAt(conns, ip) + {ws} else ConnsAt(conns, ip) {
    }
    assert ws !in ConnsAt(conns, conn.ip);
  }

  lemma IpReleased(conns: map<Socket, Conn>, ips: map<string, int>, ws: Socket)
    requires IpsOk(conns, ips) && ws in conns
    ensures IpsOk(conns - {ws}, AdjustIp(ips, conns[ws].ip, -1))
  {
    var mine := conns[ws].ip;
    forall ip ensures ConnsAt(conns - {ws}, ip) == if ip == mine then ConnsAt(conns, ip) - {ws} else ConnsAt(conns, ip) {
    }
    assert ws in ConnsAt(conns, mine);
  }

  lemma MembersGrow(cfg: Config, conns: map<Socket, Conn>, log: seq<Effect>, scopes: map<string, Scope>, ws: Socket, conn: Conn)
    requires ScopesOk(cfg, conns, log, scopes) && ws !in conns
    ensures ScopesOk(cfg, conns[ws := conn], log, scopes)
  {
    forall key | key in scopes ensures ScopeOk(cfg, conns[ws := conn], log, key, scopes[key]) {
      assert ScopeOk(cfg, conns, log, key, scopes[key]);
    }
  }

  lemma AdmitWorkerKeeps(cfg: Config, r: Relay, ws: Socket, conn: Conn)
    requires Inv(cfg, r) && ws !in r.conns && conn.role.Worker?
    ensures Inv(cfg, Admit(r, ws, conn))
  {
    IpAdmitted(r.conns, r.ips, ws, conn);
    MembersGrow(cfg, r.conns, r.log, r.scopes, ws, conn);
  }

  lemma ScopesPut(cfg: Config, conns: map<Socket, Conn>, log: seq<Effect>, scopes: map<string, Scope>, key: string, t: Scope)
    requires ScopesOk(cfg, conns, log, scopes) && ScopeOk(cfg, conns, log, key, t)
    ensures ScopesOk(cfg, conns, log, scopes[key := t])
  {
    hide ScopeOk;
  }

  lemma AdmitMembers(conns: map<Socket, Conn>, scopes: map<string, Scope>, open: set<Socket>, ws: Socket, conn: Conn, t: Scope)
    requires ClientsHaveScopes(conns, scopes) && OpenDaemonsCurrent(conns, scopes, open) && ws !in conns
    requires conn.scopeKey in scopes && scopes[conn.scopeKey].clients <= t.clients
    requires conn.role.Client? ==> ws in t.clients
    requires if conn.role.Daemon? then t.daemon == Some(ws) && (scopes[conn.scopeKey].daemon.Some? ==> scopes[conn.scopeKey].daemon.value !in open)
             else t.daemon == scopes[conn.scopeKey].daemon
    ensures ClientsHaveScopes(conns[ws := conn], scopes[conn.scopeKey := t])
    ensures OpenDaemonsCurrent(conns[ws := conn], scopes[conn.scopeKey := t], open + {ws})
  {
  }

  /** The scope with one more client. */
  lemma ClientAdded(cfg: Config, conns: map<Socket, Conn>, log: seq<Effect>, key: string, s: Scope, ws: Socket, conn: Conn)
    requires ScopeOk(cfg, conns, log, key, s) && ws !in conns && conn.role.Client? && conn.scopeKey == key
    ensures ScopeOk(cfg, conns[ws := conn], log, key, s.(clients := s.clients + {ws}))
  {
  }

  lemma AdmitClientKeeps(cfg: Config, r: Relay, ws: Socket, conn: Conn, s: Scope)
    requires Inv(cfg, r) && ws !in r.conns && conn.role.Client?
    requires conn.scopeKey in r.scopes && r.scopes[conn.scopeKey] == s
    ensures Inv(cfg, Admit(Put(r, conn.scopeKey, s.(clients := s.clients + {ws})), ws, conn))
  {
    hide ScopesOk, ScopeOk, OpenDaemonsCurrent, ClientsHaveScopes, IpsOk, AllJustified, AdjustIp;
    var key := conn.scopeKey;
    InvScope(cfg, r, key);
    ClientAdded(cfg, r.conns, r.log, key, s, ws, conn);
    IpAdmitted(r.conns, r.ips, ws, conn);
    MembersGrow(cfg, r.conns, r.log, r.scopes, ws, conn);
    var t := s.(clients := s.clients + {ws});
    ScopesPut(cfg, r.conns[ws := conn], r.log, r.scopes, key, t);
    AdmitMembers(r.conns, r.scopes, r.open, ws, conn, t);
  }

  /** The scope handed to a new daemon: key exchanges and sessions start over, pairing requests stay. */
  function Handed(s: Scope, ws: Socket, generation: Option<nat>): Scope {
    s.(daemon := Some(ws), generation := if generation.Some? then generation else s.generation, kex := Empty(), sessions := Empty())
  }

  lemma DaemonHanded(cfg: Config, conns: map<Socket, Conn>, log: seq<Effect>, key: string, s: Scope, ws: Socket, conn: Conn, generation: Option<nat>)
    requires ScopeOk(cfg, conns, log, key, s) && ws !in conns && conn.role.Daemon? && conn.scopeKey == key
    ensures ScopeOk(cfg, conns[ws := conn], log, key, Handed(s, ws, generation))
  {
  }

  lemma AdmitDaemonKeeps(cfg: Config, r: Relay, ws: Socket, conn: Conn, s: Scope, generation: Option<nat>)
    requires Inv(cfg, r) && ws !in r.conns && conn.role.Daemon?
    requires conn.scopeKey in r.scopes && r.scopes[conn.scopeKey] == s
    requires s.daemon.Some? ==> s.daemon.value !in r.open
    ensures Inv(cfg, Admit(Put(r, conn.scopeKey, Handed(s, ws, generation)), ws, conn))
  {
    hide ScopesOk, ScopeOk, OpenDaemonsCurrent, ClientsHaveScopes, IpsOk, AllJustified, AdjustIp;
    var key := conn.scopeKey;
    InvScope(cfg, r, key);
    DaemonHanded(cfg, r.conns, r.log, key, s, ws, conn, generation);
    IpAdmitted(r.conns, r.ips, ws, conn);
    MembersGrow(cfg, r.conns, r.log, r.scopes, ws, conn);
    var t := Handed(s, ws, generation);
    ScopesPut(cfg, r.conns[ws := conn], r.log, r.scopes, key, t);
    AdmitMembers(r.conns, r.scopes, r.open, ws, conn, t);
  }

  lemma OnConnectKeeps(cfg: Config, r: Relay, ws: Socket, conn: Conn, generation: Option<nat>, now: int)
    requires Inv(cfg, r) && ws !in r.conns && ws !in r.open
    ensures Inv(cfg, OnConnect(r, ws, conn, generation, now))
  {
    hide Inv, ScopeOk, Fetched, PruneAll, Admit;
    var key := conn.scopeKey;
    var s := PruneAll(Fetched(r.scopes, key, conn.workspaceId, conn.runtimeTargetId, now).(lastActivityAt := now), now);
    TouchedOk(cfg, r, key, conn.workspaceId, conn.runtimeTargetId, now);
    PutKeeps(cfg, r, key, s);
    var r1 := Put(r, key, s);
    match conn.role {
      case Worker => AdmitWorkerKeeps(cfg, r1, ws, conn);
      case Client =>
        AdmitClientKeeps(cfg, r1, ws, conn, s);
      case Daemon =>
        if s.daemon.None? || s.daemon.value !in r.open {
          AdmitDaemonKeeps(cfg, r1, ws, conn, s, generation);
        }
    }
  }

  lemma ClientRemoved(cfg: Config, conns: map<Socket, Conn>, log: seq<Effect>, key: string, s: Scope, ws: Socket, now: int)
    requires ScopeOk(cfg, conns, log, key, s) && ws in conns && conns[ws].role.Client?
    ensures ScopeOk(cfg, conns - {ws}, log, key, RemoveClient(s, ws, now))
  {
    var t := RemoveClient(s, ws, now);
    SubTrackerOk(s.kex, t.kex, s.clients, cfg.maxPairingRequestTrack);
    SubTrackerOk(s.pairing, t.pairing, s.clients, cfg.maxPairingRequestTrack);
    SubTrackerOk(s.sessions, t.sessions, s.clients, cfg.maxSessionOwnerTrack);
  }

  lemma DaemonCleared(cfg: Config, conns: map<Socket, Conn>, log: seq<Effect>, key: string, s: Scope, ws: Socket, now: int)
    requires ScopeOk(cfg, conns, log, key, s) && ws in conns && conns[ws].role.Daemon?
    ensures ScopeOk(cfg, conns - {ws}, log, key, ClearDaemon(s, ws, now))
  {
  }

  /** Scopes other than the connection's own do not know it. */
  lemma OthersUnaffected(cfg: Config, conns: map<Socket, Conn>, log: seq<Effect>, scopes: map<string, Scope>, ws: Socket)
    requires ScopesOk(cfg, conns, log, scopes) && ws in conns
    ensures forall key :: key in scopes && (key != conns[ws].scopeKey || conns[ws].role.Worker?) ==>
              ScopeOk(cfg, conns - {ws}, log, key, scopes[key])
  {
    forall key | key in scopes && (key != conns[ws].scopeKey || conns[ws].role.Worker?)
      ensures ScopeOk(cfg, conns - {ws}, log, key, scopes[key])
    {
      assert ScopeOk(cfg, conns, log, key, scopes[key]);
    }
  }

  lemma OnClosedKeeps(cfg: Config, r: Relay, ws: Socket, now: int)
    requires Inv(cfg, r) && ws in r.conns
    ensures Inv(cfg, OnClosed(r, ws, now))
  {
    hide ScopeOk, OpenDaemonsCurrent, ClientsHaveScopes, IpsOk, AllJustified, AdjustIp, RemoveClient, ClearDaemon;
    var conn := r.conns[ws];
    var key := conn.scopeKey;
    IpReleased(r.conns, r.ips, ws);
    OthersUnaffected(cfg, r.conns, r.log, r.scopes, ws);
    if key in r.scopes {
      InvScope(cfg, r, key);
      if conn.role.Client? {
        ClientRemoved(cfg, r.conns, r.log, key, r.scopes[key], ws, now);
      } else if conn.role.Daemon? {
        DaemonCleared(cfg, r.conns, r.log, key, r.scopes[key], ws, now);
      }
    }
    ClosedMembers(r, ws, now);
  }

  lemma ClosedMembers(r: Relay, ws: Socket, now: int)
    requires ClientsHaveScopes(r.conns, r.scopes) && OpenDaemonsCurrent(r.conns, r.scopes, r.open) && ws in r.conns
    ensures var r' := OnClosed(r, ws, now);
            ClientsHaveScopes(r'.conns, r'.scopes) && OpenDaemonsCurrent(r'.conns, r'.scopes, r'.open)
  {
    hide Keep, WithoutSubscriber, AdjustIp;
  }

  lemma PruneIdleKeeps(cfg: Config, r: Relay, ttlMs: int, now: int)
    requires Inv(cfg, r)
    ensures Inv(cfg, r.(scopes := WithoutIdle(r.scopes, ttlMs, now)))
  {
  }

  // ----- runs -----

  lemma UpgradeKeeps(cfg: Config, r: Relay, key: string, now: int)
    requires Inv(cfg, r)
    ensures Inv(cfg, Put(r, key, Looked(r.scopes, key, now)))
  {
    hide Inv, ScopeOk;
    if key in r.scopes {
      InvScope(cfg, r, key);
    } else {
      NewScopeOk(cfg, r.conns, r.log, key, key, None, now);
    }
    PutKeeps(cfg, r, key, Looked(r.scopes, key, now));
  }

  lemma StepKeeps(cfg: Config, r: Relay, e: Event)
    requires ValidConfig(cfg) && Inv(cfg, r)
    ensures Inv(cfg, Step(cfg, r, e))
  {
    hide Inv, OnConnect, OnClientMessage, OnDaemonMessage, OnBus, OnClosed, WithoutIdle, Looked, Put;
    if Enabled(r, e) {
      match e {
        case Connect(ws, conn, generation, now) => OnConnectKeeps(cfg, r, ws, conn, generation, now);
        case Message(ws, f, allowed, now, slow) =>
          if r.conns[ws].role.Client? {
            OnClientMessageKeeps(cfg, r, ws, f, allowed, now, slow);
          } else {
            OnDaemonMessageKeeps(cfg, r, ws, r.conns[ws], f, allowed, now, slow);
          }
        case Bus(_, _, _, _, _, _, _, _) => OnBusKeeps(cfg, r, e);
        case LeaveOpen(ws) => ShrinkOpenKeeps(cfg, r, r.open - {ws});
        case Closed(ws, now) => OnClosedKeeps(cfg, r, ws, now);
        case Prune(ttlMs, now) => PruneIdleKeeps(cfg, r, ttlMs, now);
        case Upgrade(key, now) => UpgradeKeeps(cfg, r, key, now);
      }
    }
  }

  lemma InitialInv(cfg: Config)
    ensures Inv(cfg, INITIAL)
  {
    forall ip ensures ConnsAt(INITIAL.conns, ip) == {} {
    }
  }

  /** Every interleaving keeps the invariant: tracked and bound clients and subscribers are connected
      clients of the scope, subscriber sets are not empty, trackers are within their caps, each live
      client's scope is registered with it, every open daemon is current, the address counts are
      exact and every delivery is justified by the log. */
  lemma {:induction false} EveryRunKeeps(cfg: Config, states: seq<Relay>, events: seq<Event>, n: nat)
    requires ValidConfig(cfg) && IsRun(cfg, states, events) && n <= |events|
    ensures Inv(cfg, states[n])
  {
    if n == 0 {
      InitialInv(cfg);
    } else {
      EveryRunKeeps(cfg, states, events, n - 1);
      StepKeeps(cfg, states[n - 1], events[n - 1]);
    }
  }
}
