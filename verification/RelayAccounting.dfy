/** The per-address counts against the registry's own count of connections. */
module RelayAccounting {
  import opened Basics
  import opened RelaySpec
  import opened RelayProofs

  // ----- sums over finite maps -----

  ghost function Pick<T(!new)>(s: set<T>): T
    requires s != {}
    ensures Pick(s) in s
  {
    var x :| x in s;
    x
  }

  ghost function Sum(m: map<string, int>): int
    decreases |m|
  {
    if |m| == 0 then 0
    else
      var k := PickKey(m);
      Smaller(m, k);
      m[k] + Sum(m - {k})
  }

  ghost function PickKey(m: map<string, int>): string
    requires |m| != 0
    ensures PickKey(m) in m
  {
    assert m.Keys != {} by { assert |m.Keys| == |m|; }
    Pick(m.Keys)
  }

  lemma Smaller(m: map<string, int>, k: string)
    requires k in m
    ensures |m - {k}| == |m| - 1
  {
    assert (m - {k}).Keys == m.Keys - {k};
    assert |m.Keys| == |m| && |(m - {k}).Keys| == |m - {k}|;
  }

  /** The sum does not depend on the order in which entries are taken. */
  lemma {:induction false} SumRemove(m: map<string, int>, k: string)
    requires k in m
    ensures Sum(m) == m[k] + Sum(m - {k})
    decreases |m|
  {
    Smaller(m, k);
    assert |m| != 0;
    var p := PickKey(m);
    if p != k {
      Smaller(m, p);
      SumRemove(m - {p}, k);
      SumRemove(m - {k}, p);
      assert m - {p} - {k} == m - {k} - {p};
    }
  }

  lemma SumEmpty(m: map<string, int>)
    requires m.Keys == {}
    ensures Sum(m) == 0
  {
    assert |m.Keys| == |m|;
  }

  function Fiber(g: map<Socket, string>, k: string): set<Socket> {
    set c | c in g && g[c] == k
  }

  function Over(g: map<Socket, string>, keys: set<string>): set<Socket> {
    set c | c in g && g[c] in keys
  }

  /** If each key counts the sockets assigned to it, the sum counts the sockets assigned to any key. */
  lemma {:induction false} SumOfFibers(m: map<string, int>, g: map<Socket, string>)
    requires forall k :: k in m ==> m[k] == |Fiber(g, k)|
    ensures Sum(m) == |Over(g, m.Keys)|
    decreases |m|
  {
    if |m| == 0 {
      assert m.Keys == {} by { assert |m.Keys| == |m|; }
      assert Over(g, m.Keys) == {};
    } else {
      var k := PickKey(m);
      Smaller(m, k);
      SumOfFibers(m - {k}, g);
      var rest := Over(g, (m - {k}).Keys);
      assert Over(g, m.Keys) == Fiber(g, k) + rest;
      assert Fiber(g, k) !! rest;
    }
  }

  // ----- the two counts -----

  function Weight(s: Scope): int {
    (if s.daemon.Some? then 1 else 0) + |s.clients|
  }

  function Weights(scopes: map<string, Scope>): map<string, int> {
    map key | key in scopes :: Weight(scopes[key])
  }

  /** What the registry's `totalConnectionCount` adds up. */
  ghost function TotalConnections(scopes: map<string, Scope>): int {
    Sum(Weights(scopes))
  }

  predicate CurrentDaemon(r: Relay, c: Socket)
    requires c in r.conns
  {
    r.conns[c].scopeKey in r.scopes && r.scopes[r.conns[c].scopeKey].daemon == Some(c)
  }

  function Workers(r: Relay): set<Socket> {
    set c | c in r.conns && r.conns[c].role.Worker?
  }

  /** Daemons whose place another daemon has taken and which have not closed yet. */
  function Superseded(r: Relay): set<Socket> {
    set c | c in r.conns && r.conns[c].role.Daemon? && !CurrentDaemon(r, c)
  }

  function Counted(r: Relay): map<Socket, string> {
    map c | c in r.conns && (r.conns[c].role.Client? || (r.conns[c].role.Daemon? && CurrentDaemon(r, c))) :: r.conns[c].scopeKey
  }

  lemma AddressesCountConnections(conns: map<Socket, Conn>, ips: map<string, int>)
    requires IpsOk(conns, ips)
    ensures Sum(ips) == |conns|
  {
    var g := map c | c in conns :: conns[c].ip;
    forall ip ensures Fiber(g, ip) == ConnsAt(conns, ip) {
    }
    SumOfFibers(ips, g);
    forall c | c in conns ensures conns[c].ip in ips {
      assert c in ConnsAt(conns, conns[c].ip);
    }
    assert Over(g, ips.Keys) == conns.Keys;
    assert |conns.Keys| == |conns|;
  }

  lemma RegistryCountsMembers(cfg: Config, r: Relay)
    requires Inv(cfg, r)
    ensures TotalConnections(r.scopes) == |Counted(r)|
  {
    var g := Counted(r);
    var w := Weights(r.scopes);
    forall key | key in w ensures w[key] == |Fiber(g, key)| {
      WeightIsFiber(cfg, r, key);
    }
    SumOfFibers(w, g);
    assert Over(g, w.Keys) == g.Keys;
    assert |g.Keys| == |g|;
  }

  lemma WeightIsFiber(cfg: Config, r: Relay, key: string)
    requires Inv(cfg, r) && key in r.scopes
    ensures Weight(r.scopes[key]) == |Fiber(Counted(r), key)|
  {
    InvScope(cfg, r, key);
    FiberOfScope(cfg, r, key);
  }

  lemma FiberOfScope(cfg: Config, r: Relay, key: string)
    requires key in r.scopes && MembersOk(r.conns, key, r.scopes[key]) && ClientsHaveScopes(r.conns, r.scopes)
    ensures Weight(r.scopes[key]) == |Fiber(Counted(r), key)|
  {
    var s := r.scopes[key];
    var d := if s.daemon.Some? then {s.daemon.value} else {};
    assert Fiber(Counted(r), key) == s.clients + d;
    assert s.clients !! d;
  }

  /** In every run: the address counts add up to the registry's connection count plus the live
      workers plus the superseded daemons that have not closed yet. */
  lemma AddressCountsBalance(cfg: Config, states: seq<Relay>, events: seq<Event>, n: nat)
    requires ValidConfig(cfg) && IsRun(cfg, states, events) && n <= |events|
    ensures var r := states[n];
            Sum(r.ips) == TotalConnections(r.scopes) + |Workers(r)| + |Superseded(r)|
  {
    hide Inv, Step;
    var r := states[n];
    EveryRunKeeps(cfg, states, events, n);
    InvIps(cfg, r);
    AddressesCountConnections(r.conns, r.ips);
    RegistryCountsMembers(cfg, r);
    PartitionConns(r);
  }

  lemma InvIps(cfg: Config, r: Relay)
    requires Inv(cfg, r)
    ensures IpsOk(r.conns, r.ips)
  {
  }

  lemma PartitionConns(r: Relay)
    ensures |r.conns| == |Counted(r)| + |Workers(r)| + |Superseded(r)|
  {
    var c, w, s := Counted(r).Keys, Workers(r), Superseded(r);
    assert r.conns.Keys == c + w + s;
    assert c !! w && c !! s && w !! s;
    assert |r.conns.Keys| == |r.conns| && |c| == |Counted(r)|;
  }
}
