/**
 The client hub (client_lifecycle.rs): which clients are initialized, which connection speaks for
 each, and the two stages by which a silent client expires.  Times are milliseconds.
 */
module ClientHubs {
  import opened Prelude

  datatype Role = Window | ShellHold

  datatype Context = Context(client: ClientId, connection: ConnectionId, role: Role, capabilities: set<string>)

  /** `graceUntil` ends the reconnect window of a client without a transport; `liveUntil` is when
      silence turns a connected client into a reconnecting one. */
  datatype ClientRecord = ClientRecord(context: Context, graceUntil: Option<nat>, liveUntil: nat)

  datatype Policy = Policy(grace: nat, heartbeat: nat)

  datatype Hub = Hub(
    clients: map<ClientId, ClientRecord>,
    connections: map<ConnectionId, ClientId>,
    everInitialized: bool)

  // ---------------------------------------------------------------- one call, as a function

  function Unmapped(connections: map<ConnectionId, ClientId>, clients: set<ClientId>): map<ConnectionId, ClientId> {
    map k | k in connections && connections[k] !in clients :: connections[k]
  }

  function Initialize(h: Hub, policy: Policy, context: Context, now: nat): Hub {
    Hub(h.clients[context.client := ClientRecord(context, None, now + policy.heartbeat)],
        Unmapped(h.connections, {context.client})[context.connection := context.client],
        true)
  }

  function Capabilities(h: Hub, client: ClientId, capabilities: set<string>): Hub {
    if client !in h.clients then h
    else
      var record := h.clients[client];
      h.(clients := h.clients[client := record.(context := record.context.(capabilities := capabilities))])
  }

  function TransportClosed(h: Hub, policy: Policy, connection: ConnectionId, now: nat): Hub {
    if connection !in h.connections then h
    else
      var client := h.connections[connection];
      h.(connections := h.connections - {connection},
         clients := if client in h.clients
                    then h.clients[client := h.clients[client].(graceUntil := Some(now + policy.grace))]
                    else h.clients)
  }

  function Activity(h: Hub, policy: Policy, connection: ConnectionId, now: nat): Hub {
    if connection !in h.connections || h.connections[connection] !in h.clients then h
    else
      var client := h.connections[connection];
      h.(clients := h.clients[client := h.clients[client].(liveUntil := now + policy.heartbeat)])
  }

  /** Where an event for each client goes. */
  function Deliveries(h: Hub): map<ClientId, ConnectionId> {
    map c | c in h.clients :: h.clients[c].context.connection
  }

  function Removed(h: Hub, clients: set<ClientId>): Hub {
    h.(clients := h.clients - clients, connections := Unmapped(h.connections, clients))
  }

  predicate GraceOver(record: ClientRecord, now: nat) {
    record.graceUntil.Some? && now >= record.graceUntil.value
  }

  function ExpireAfterGrace(h: Hub, client: ClientId, now: nat): Hub {
    if client in h.clients && GraceOver(h.clients[client], now) then Removed(h, {client}) else h
  }

  /** Connected clients that have been silent too long. */
  function Silent(h: Hub, now: nat): set<ClientId> {
    set c | c in h.clients && h.clients[c].graceUntil.None? && now >= h.clients[c].liveUntil
  }

  function EnterGrace(h: Hub, policy: Policy, clients: set<ClientId>, now: nat): Hub {
    h.(clients := map c | c in h.clients ::
                    (if c in clients then h.clients[c].(graceUntil := Some(now + policy.grace)) else h.clients[c]),
       connections := Unmapped(h.connections, clients))
  }

  function EnterOne(h: Hub, policy: Policy, client: ClientId, now: nat): Hub {
    if client !in h.clients then h
    else h.(clients := h.clients[client := h.clients[client].(graceUntil := Some(now + policy.grace))],
            connections := Unmapped(h.connections, {client}))
  }

  function Overdue(h: Hub, now: nat): set<ClientId> {
    set c | c in h.clients && GraceOver(h.clients[c], now)
  }

  /** A sweep: silence opens a fresh reconnect window, and only its end removes a client. */
  function Sweep(h: Hub, policy: Policy, now: nat): Hub {
    var reconnecting := EnterGrace(h, policy, Silent(h, now), now);
    Removed(reconnecting, Overdue(reconnecting, now))
  }

  function Detach(h: Hub, client: ClientId): Hub {
    if client !in h.clients then h else Removed(h, {client})
  }

  // ---------------------------------------------------------------- the maps agree

  /** Each mapped connection names a present client that records that connection and is not
      reconnecting. */
  predicate Mapped(h: Hub) {
    && (forall k :: k in h.connections ==>
                      && h.connections[k] in h.clients
                      && h.clients[h.connections[k]].context.connection == k
                      && h.clients[h.connections[k]].graceUntil.None?)
    && (forall c :: c in h.clients ==> h.clients[c].context.client == c)
  }

  /** And every client that is not reconnecting is the one its connection speaks for. */
  predicate Answerable(h: Hub) {
    forall c :: c in h.clients && h.clients[c].graceUntil.None? ==>
                  h.clients[c].context.connection in h.connections && h.connections[h.clients[c].context.connection] == c
  }

  lemma OneConnectionPerClient(h: Hub, k: ConnectionId, j: ConnectionId)
    requires Mapped(h) && k in h.connections && j in h.connections && h.connections[k] == h.connections[j]
    ensures k == j
  {
  }

  /** Initializing keeps every connected client answerable exactly when the connection was not
      speaking for another client. */
  lemma InitializeStrandsExactlyTakenOver(h: Hub, policy: Policy, context: Context, now: nat)
    requires Mapped(h) && Answerable(h)
    ensures Mapped(Initialize(h, policy, context, now))
    ensures Answerable(Initialize(h, policy, context, now))
            <==> (context.connection in h.connections ==> h.connections[context.connection] == context.client)
  {
    var next := Initialize(h, policy, context, now);
    if context.connection in h.connections && h.connections[context.connection] != context.client {
      var stranded := h.connections[context.connection];
      assert stranded in next.clients && next.clients[stranded].graceUntil.None?;
      assert next.connections[next.clients[stranded].context.connection] == context.client;
    }
  }

  // ---------------------------------------------------------------- the hub object

  datatype ExpiryBatch = ExpiryBatch(entered: seq<ClientId>, expired: seq<ClientId>, lastClientExpired: bool)

  class ClientHub {
    const policy: Policy
    var clients: map<ClientId, ClientRecord>
    var connections: map<ConnectionId, ClientId>
    var hasEverInitialized: bool

    ghost function State(): Hub
      reads this
    {
      Hub(clients, connections, hasEverInitialized)
    }

    constructor (policy: Policy)
      ensures this.policy == policy && State() == Hub(map[], map[], false)
    {
      this.policy := policy;
      clients, connections, hasEverInitialized := map[], map[], false;
    }

    /** Returns whether the client was already present. */
    method InitializeClient(context: Context, now: nat) returns (reattached: bool)
      modifies this
      ensures State() == Initialize(old(State()), policy, context, now)
      ensures reattached == (context.client in old(clients))
    {
      hasEverInitialized := true;
      reattached := context.client in clients;
      connections := Unmapped(connections, {context.client});
      connections := connections[context.connection := context.client];
      clients := clients[context.client := ClientRecord(context, None, now + policy.heartbeat)];
    }

    method UpdateCapabilities(client: ClientId, capabilities: set<string>) returns (known: bool)
      modifies this
      ensures State() == Capabilities(old(State()), client, capabilities)
      ensures known == (client in old(clients))
    {
      known := client in clients;
      if known {
        var record := clients[client];
        clients := clients[client := record.(context := record.context.(capabilities := capabilities))];
      }
    }

    method ObserveTransportClosed(connection: ConnectionId, now: nat) returns (left: Option<ClientId>)
      modifies this
      ensures State() == TransportClosed(old(State()), policy, connection, now)
      ensures left == if connection in old(connections) then Some(old(connections)[connection]) else None
    {
      if connection !in connections {
        return None;
      }
      var client := connections[connection];
      connections := connections - {connection};
      if client in clients {
        clients := clients[client := clients[client].(graceUntil := Some(now + policy.grace))];
      }
      left := Some(client);
    }

    method ObserveConnectionActivity(connection: ConnectionId, now: nat)
      modifies this
      ensures State() == Activity(old(State()), policy, connection, now)
    {
      if connection in connections && connections[connection] in clients {
        var client := connections[connection];
        clients := clients[client := clients[client].(liveUntil := now + policy.heartbeat)];
      }
    }

    method ExpireAfterReconnectGrace(client: ClientId, now: nat) returns (expired: bool, lastClient: bool)
      modifies this
      ensures State() == ExpireAfterGrace(old(State()), client, now)
      ensures expired == (client in old(clients) && GraceOver(old(clients)[client], now))
      ensures lastClient == (expired && clients == map[])
    {
      expired, lastClient := false, false;
      if client in clients && clients[client].graceUntil.Some? && now >= clients[client].graceUntil.value {
        clients := clients - {client};
        connections := Unmapped(connections, {client});
        expired, lastClient := true, clients == map[];
      }
    }

    method DetachClient(client: ClientId) returns (detached: bool, lastClient: bool)
      modifies this
      ensures State() == Detach(old(State()), client)
      ensures detached == (client in old(clients)) && lastClient == (detached && clients == map[])
    {
      detached, lastClient := false, false;
      if client in clients {
        clients := clients - {client};
        connections := Unmapped(connections, {client});
        detached, lastClient := true, clients == map[];
      }
    }

    method ExpireInactiveClients(now: nat) returns (batch: ExpiryBatch)
      modifies this
      ensures State() == Sweep(old(State()), policy, now)
      ensures Distinct(batch.entered) && (forall c :: c in batch.entered <==> c in Silent(old(State()), now))
      ensures Distinct(batch.expired) && (forall c :: c in batch.expired <==> c in old(clients) && c !in clients)
      ensures batch.lastClientExpired == (batch.expired != [] && clients == map[])
    {
      ghost var before := State();
      var silent := set c | c in clients && clients[c].graceUntil.None? && now >= clients[c].liveUntil;
      assert silent == Silent(before, now);
      var entered := OpenGrace(silent, now);
      ghost var reconnecting := State();
      var overdue := set c | c in clients && clients[c].graceUntil.Some? && now >= clients[c].graceUntil.value;
      assert overdue == Overdue(reconnecting, now);
      var expired := RemoveAll(overdue);
      batch := ExpiryBatch(entered, expired, expired != [] && clients == map[]);
    }

    method OpenGrace(silent: set<ClientId>, now: nat) returns (entered: seq<ClientId>)
      requires silent <= clients.Keys
      modifies this
      ensures State() == EnterGrace(old(State()), policy, silent, now)
      ensures Distinct(entered) && forall c :: c in entered <==> c in silent
    {
      ghost var before := State();
      entered := [];
      var remaining := silent;
      NobodyEnters(before, policy, now);
      assert silent - remaining == {};
      hide EnterGrace, EnterOne;
      while remaining != {}
        invariant remaining <= silent
        invariant State() == EnterGrace(before, policy, silent - remaining, now)
        invariant Distinct(entered) && forall c :: c in entered <==> c in silent - remaining
        decreases |remaining|
      {
        hide Distinct;
        var client :| client in remaining;
        ghost var done := silent - remaining;
        OneMoreEnters(before, policy, done, client, now);
        ListOneMore(entered, done, client);
        StartGrace(client, now);
        remaining := remaining - {client};
        assert silent - remaining == done + {client};
        entered := entered + [client];
      }
      assert silent - {} == silent;
    }

    method StartGrace(client: ClientId, now: nat)
      modifies this
      ensures State() == EnterOne(old(State()), policy, client, now)
    {
      if client in clients {
        clients := clients[client := clients[client].(graceUntil := Some(now + policy.grace))];
        connections := Unmapped(connections, {client});
      }
    }

    method RemoveAll(overdue: set<ClientId>) returns (expired: seq<ClientId>)
      modifies this
      ensures State() == Removed(old(State()), overdue)
      ensures Distinct(expired) && forall c :: c in expired <==> c in overdue
    {
      ghost var before := State();
      expired := [];
      var remaining := overdue;
      assert Removed(before, {}) == before && overdue - remaining == {};
      hide Removed;
      while remaining != {}
        invariant remaining <= overdue
        invariant State() == Removed(before, overdue - remaining)
        invariant Distinct(expired) && forall c :: c in expired <==> c in overdue - remaining
        decreases |remaining|
      {
        hide Distinct;
        var client :| client in remaining;
        ghost var done := overdue - remaining;
        OneMoreRemoved(before, done, client);
        ListOneMore(expired, done, client);
        clients := clients - {client};
        connections := Unmapped(connections, {client});
        remaining := remaining - {client};
        assert overdue - remaining == done + {client};
        expired := expired + [client];
      }
      assert overdue - {} == overdue;
    }
  }

  lemma ListOneMore(listed: seq<ClientId>, done: set<ClientId>, client: ClientId)
    requires Distinct(listed) && (forall c :: c in listed <==> c in done) && client !in done
    ensures Distinct(listed + [client]) && forall c :: c in listed + [client] <==> c in done + {client}
  {
  }

  lemma NobodyEnters(h: Hub, policy: Policy, now: nat)
    ensures EnterGrace(h, policy, {}, now) == h
  {
  }

  lemma OneMoreEnters(h: Hub, policy: Policy, done: set<ClientId>, client: ClientId, now: nat)
    requires client in h.clients && client !in done
    ensures EnterGrace(h, policy, done + {client}, now) == EnterOne(EnterGrace(h, policy, done, now), policy, client, now)
  {
    var part, whole := EnterGrace(h, policy, done, now), EnterGrace(h, policy, done + {client}, now);
    assert whole.connections == Unmapped(part.connections, {client});
  }

  lemma OneMoreRemoved(h: Hub, done: set<ClientId>, client: ClientId)
    ensures var part, whole := Removed(h, done), Removed(h, done + {client});
            whole == part.(clients := part.clients - {client}, connections := Unmapped(part.connections, {client}))
  {
    var part, whole := Removed(h, done), Removed(h, done + {client});
    assert whole.connections == Unmapped(part.connections, {client});
  }
}
