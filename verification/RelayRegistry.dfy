/**
  The relay's objects: workspace states that handlers capture and change in place, and the registry that
  maps scope keys to them. Each method is proved against RelaySpec.
*/
module RelayRegistry {
  import opened Basics
  import opened OrderedMap
  import opened RelaySpec
  import opened RelayAccounting
  import opened RelayProofs

  /** `while (size >= max) delete the first key`, then set. */
  method TrackInto(t: Tracker, id: string, owner: Owner, max: nat) returns (r: Tracker)
    ensures r == Track(t, id, owner, max)
  {
    r := t;
    var room := if max > 0 then max - 1 else 0;
    while |r.order| >= max && r.order != []
      invariant EvictTo(r, room) == EvictTo(t, room)
      decreases |r.order|
    {
      r := DropOldest(r);
    }
    r := Set(r, id, owner);
  }

  class WorkspaceState {
    var workspaceId: string
    var runtimeTargetId: Option<string>
    var daemon: Option<Socket>
    var daemonIssueGeneration: Option<nat>
    var clients: set<Socket>
    var sessionEventSubscribers: map<string, set<Socket>>
    var keyExchangeRequests: Tracker
    var sessionOwners: Tracker
    var pairingRequests: Tracker
    var lastActivityAt: int

    function View(): Scope
      reads this
    {
      Scope(workspaceId, runtimeTargetId, daemon, daemonIssueGeneration, clients, sessionEventSubscribers,
            keyExchangeRequests, sessionOwners, pairingRequests, lastActivityAt)
    }

    constructor (workspaceId: string, runtimeTargetId: Option<string>, now: int)
      ensures View() == NewScope(workspaceId, runtimeTargetId, now)
    {
      this.workspaceId, this.runtimeTargetId, lastActivityAt := workspaceId, runtimeTargetId, now;
      daemon, daemonIssueGeneration, clients, sessionEventSubscribers := None, None, {}, map[];
      keyExchangeRequests, sessionOwners, pairingRequests := Empty(), Empty(), Empty();
    }

    method PruneStalePairingRequests(now: int)
      modifies this
      ensures View() == PrunePairing(old(View()), now)
    {
      pairingRequests := Sweep(pairingRequests, NotExpired(now, REQUEST_TTL_MS));
    }

    method PruneStaleKeyExchangeRequests(now: int)
      modifies this
      ensures View() == PruneKex(old(View()), now)
    {
      keyExchangeRequests := Sweep(keyExchangeRequests, NotExpired(now, REQUEST_TTL_MS));
    }

    method PruneStaleSessionOwners(now: int)
      modifies this
      ensures View() == PruneSessions(old(View()), now)
    {
      sessionOwners := Sweep(sessionOwners, NotExpired(now, SESSION_OWNER_TTL_MS));
    }

    method PruneStale(now: int)
      modifies this
      ensures View() == PruneAll(old(View()), now)
    {
      PruneStalePairingRequests(now);
      PruneStaleKeyExchangeRequests(now);
      PruneStaleSessionOwners(now);
    }

    /** Remove a closed client and everything that refers to it. */
    method RemoveClient(ws: Socket, now: int)
      modifies this
      ensures View() == RelaySpec.RemoveClient(old(View()), ws, now)
    {
      hide Keep, WithoutSubscriber, NotOwnedBy;
      clients := clients - {ws};
      pairingRequests := Sweep(pairingRequests, NotOwnedBy(ws));
      keyExchangeRequests := Sweep(keyExchangeRequests, NotOwnedBy(ws));
      sessionOwners := Sweep(sessionOwners, NotOwnedBy(ws));
      sessionEventSubscribers := Unsubscribed(sessionEventSubscribers, ws);
      lastActivityAt := now;
    }

    /** The daemon goes, and with it all trackers, only if this socket is the current one. */
    method ClearDaemon(ws: Socket, now: int) returns (cleared: bool)
      modifies this
      ensures View() == RelaySpec.ClearDaemon(old(View()), ws, now)
      ensures cleared <==> old(View()).daemon == Some(ws)
    {
      cleared := false;
      if daemon == Some(ws) {
        daemon := None;
        cleared := true;
      }
      if cleared {
        keyExchangeRequests := Empty();
        sessionOwners := Empty();
        pairingRequests := Empty();
      }
      lastActivityAt := now;
    }

    /** A new daemon starts key exchanges and sessions over. */
    method AdoptDaemon(ws: Socket, generation: Option<nat>)
      modifies this
      ensures View() == Handed(old(View()), ws, generation)
    {
      daemon := Some(ws);
      if generation.Some? {
        daemonIssueGeneration := generation;
      }
      keyExchangeRequests := Empty();
      sessionOwners := Empty();
    }

    method Subscribe(channel: string, ws: Socket)
      modifies this
      ensures View() == old(View()).(subscribers := old(View()).subscribers[channel := Subscribers(old(View()), channel) + {ws}])
    {
      var subscribers := if channel in sessionEventSubscribers then sessionEventSubscribers[channel] else {};
      sessionEventSubscribers := sessionEventSubscribers[channel := subscribers + {ws}];
    }

    /** A channel left without subscribers goes. */
    method Unsubscribe(channel: string, ws: Socket)
      modifies this
      ensures View() == old(View()).(subscribers :=
                if Subscribers(old(View()), channel) - {ws} == {} then old(View()).subscribers - {channel}
                else old(View()).subscribers[channel := Subscribers(old(View()), channel) - {ws}])
    {
      if channel in sessionEventSubscribers {
        var subscribers := sessionEventSubscribers[channel] - {ws};
        sessionEventSubscribers := if subscribers == {} then sessionEventSubscribers - {channel}
                                   else sessionEventSubscribers[channel := subscribers];
      } else {
        assert sessionEventSubscribers - {channel} == sessionEventSubscribers;
      }
    }
  }

  /** `for (const [channel, subscribers] of map)`: drop one subscriber everywhere, and channels left empty. */
  method Unsubscribed(subscribers: map<string, set<Socket>>, ws: Socket) returns (r: map<string, set<Socket>>)
    ensures r == WithoutSubscriber(subscribers, ws)
  {
    r := subscribers;
    var todo := subscribers.Keys;
    while todo != {}
      invariant todo <= subscribers.Keys
      invariant forall ch :: ch in r <==> ch in subscribers && (ch in todo || subscribers[ch] - {ws} != {})
      invariant forall ch :: ch in r ==> r[ch] == if ch in todo then subscribers[ch] else subscribers[ch] - {ws}
      decreases todo
    {
      var channel :| channel in todo;
      var rest := r[channel] - {ws};
      r := if rest == {} then r - {channel} else r[channel := rest];
      todo := todo - {channel};
    }
    assert r.Keys == WithoutSubscriber(subscribers, ws).Keys;
  }

  /** The loop of `pruneEmpty`: the keys whose entries have no daemon, no clients and no recent activity. */
  method IdleKeys(view: map<string, Scope>, ttlMs: int, now: int) returns (removed: set<string>)
    ensures forall k :: k in removed <==> k in view && Idle(view[k], ttlMs, now)
  {
    removed := {};
    var todo := view.Keys;
    while todo != {}
      invariant todo <= view.Keys
      invariant forall k :: k in removed <==> k in view && k !in todo && Idle(view[k], ttlMs, now)
      decreases todo
    {
      var key :| key in todo;
      todo := todo - {key};
      if view[key].daemon.Some? || view[key].clients != {} {
        continue;
      }
      if now - view[key].lastActivityAt < ttlMs {
        continue;
      }
      removed := removed + {key};
    }
  }

  class ConnectionRegistry {
    var workspaces: map<string, WorkspaceState>

    /** Different keys have different state objects. */
    ghost predicate Valid()
      reads this
    {
      forall j, k :: j in workspaces && k in workspaces && j != k ==> workspaces[j] != workspaces[k]
    }

    function View(): map<string, Scope>
      reads this, workspaces.Values
    {
      map k | k in workspaces :: workspaces[k].View()
    }

    constructor ()
      ensures Valid() && workspaces == map[]
    {
      workspaces := map[];
    }

    /** Entries are added, never exchanged. */
    twostate predicate Extended()
      reads this
    {
      && Valid()
      && (forall k :: k in old(workspaces) ==> k in workspaces && workspaces[k] == old(workspaces)[k])
      && (forall k :: k in workspaces && k !in old(workspaces) ==> fresh(workspaces[k]))
    }

    method GetOrCreate(key: string, workspaceId: string, runtimeTargetId: Option<string>, now: int) returns (state: WorkspaceState)
      requires Valid()
      modifies this, workspaces.Values
      ensures Extended()
      ensures workspaces == old(workspaces)[key := state]
      ensures if key in old(workspaces) then state == old(workspaces)[key] else fresh(state)
      ensures state.View() == Fetched(old(View()), key, workspaceId, runtimeTargetId, now)
      ensures forall k :: k in old(workspaces) && k != key ==> unchanged(old(workspaces)[k])
    {
      if key !in workspaces {
        state := new WorkspaceState(workspaceId, runtimeTargetId, now);
        workspaces := workspaces[key := state];
      } else {
        state := workspaces[key];
        assert workspaces == workspaces[key := state];
        if workspaceId != "" {
          state.workspaceId := workspaceId;
          state.runtimeTargetId := runtimeTargetId;
        }
      }
    }

    /** `getOrCreate(key)` without metadata: a new state goes by its key, a known one is left as it is. */
    method Look(key: string, now: int) returns (state: WorkspaceState)
      requires Valid()
      modifies this
      ensures Extended()
      ensures workspaces == old(workspaces)[key := state]
      ensures if key in old(workspaces) then state == old(workspaces)[key] else fresh(state)
      ensures state.View() == Looked(old(View()), key, now)
    {
      if key !in workspaces {
        state := new WorkspaceState(key, None, now);
        workspaces := workspaces[key := state];
      } else {
        state := workspaces[key];
        assert workspaces == workspaces[key := state];
      }
    }

    /** If only one entry changed, or was added, the view changed there only. */
    twostate lemma OnlyChanged(key: string)
      requires key in workspaces
      requires workspaces.Keys == old(workspaces.Keys) + {key}
      requires forall k :: k in workspaces && k != key ==>
                 k in old(workspaces) && workspaces[k] == old(workspaces)[k] && workspaces[k].View() == old(workspaces[k].View())
      ensures View() == old(View())[key := workspaces[key].View()]
    {
    }

    method TotalConnectionCount() returns (count: int)
      ensures count == TotalConnections(View())
    {
      count := 0;
      var todo := workspaces.Keys;
      ghost var weights := Weights(View());
      WeightKeys();
      ghost var rest := weights;
      while todo != {}
        invariant todo <= workspaces.Keys && rest.Keys == todo
        invariant forall k :: k in rest ==> k in weights && rest[k] == weights[k]
        invariant count + Sum(rest) == Sum(weights)
        decreases todo
      {
        var key :| key in todo;
        var state := workspaces[key];
        SumRemove(rest, key);
        WeightAt(key);
        if state.daemon.Some? {
          count := count + 1;
        }
        count := count + |state.clients|;
        todo := todo - {key};
        rest := rest - {key};
      }
      SumEmpty(rest);
    }

    lemma WeightKeys()
      ensures Weights(View()).Keys == workspaces.Keys
    {
    }

    lemma WeightAt(key: string)
      requires key in workspaces
      ensures key in Weights(View()) && Weights(View())[key] == Weight(workspaces[key].View())
    {
    }

    method PruneEmpty(ttlMs: int, now: int) returns (removed: set<string>)
      requires Valid()
      modifies this
      ensures Valid()
      ensures View() == WithoutIdle(old(View()), ttlMs, now)
      ensures removed == old(workspaces).Keys - workspaces.Keys
      ensures forall k :: k in workspaces ==> k in old(workspaces) && workspaces[k] == old(workspaces)[k]
    {
      ghost var before := View();
      removed := IdleKeys(View(), ttlMs, now);
      workspaces := workspaces - removed;
      ViewIs(WithoutIdle(before, ttlMs, now));
    }

    lemma ViewIs(m: map<string, Scope>)
      requires m.Keys == workspaces.Keys
      requires forall k :: k in workspaces ==> m[k] == workspaces[k].View()
      ensures View() == m
    {
    }

    method RemoveClient(key: string, ws: Socket, now: int)
      requires Valid()
      modifies workspaces.Values
      ensures View() == if key in workspaces then old(View())[key := RelaySpec.RemoveClient(old(View())[key], ws, now)] else old(View())
    {
      if key in workspaces {
        workspaces[key].RemoveClient(ws, now);
        OnlyChanged(key);
      }
    }

    method ClearDaemon(key: string, ws: Socket, now: int) returns (cleared: bool)
      requires Valid()
      modifies workspaces.Values
      ensures View() == if key in workspaces then old(View())[key := RelaySpec.ClearDaemon(old(View())[key], ws, now)] else old(View())
      ensures cleared <==> key in workspaces && old(View())[key].daemon == Some(ws)
    {
      cleared := false;
      if key in workspaces {
        var state := workspaces[key];
        cleared := state.ClearDaemon(ws, now);
        OnlyChanged(key);
      }
    }
  }
}
