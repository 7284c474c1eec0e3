/**
 Admission at the protocol edge: the process lifecycle (app_lifecycle.rs), the update barrier
 (protocol_edge/client_handlers.rs), the hub and the subscriptions, changed together by client
 requests and expiry (protocol_edge.rs, protocol_edge/server_request_handlers.rs).
 */
module Gateways {
  import opened Prelude
  import opened ClientHubs
  import opened StateStreams
  import HR = HubRuns
  import R = Routing
  import T = Text

  datatype Lifecycle = Running | Draining | Stopping

  /** A client preparing an update holds everyone else out. */
  datatype Barrier = Barrier(owner: ClientId, attempt: string, committed: bool)

  datatype Version = Version(major: nat, minor: nat)

  datatype Edge = Edge(hub: Hub, lifecycle: Lifecycle, barrier: Option<Barrier>, subscriptions: seq<R.Subscription>)

  datatype Answer =
    | Accepted
    | IncompatibleProtocol
    | UpdateInProgress
    | ServerStopping
    | NotInitialized
    | InvalidAttempt
    | ReadinessFailed
    | Unreadable
    | Blocked
    | Ready

  /** A shared major version, and a minor the server already implements. */
  predicate AcceptsClient(server: Version, client: Version) {
    server.major == client.major && client.minor <= server.minor
  }

  // ---------------------------------------------------------------- lifecycle

  /** Initializing aborts a drain, and nothing leaves Stopping. */
  function Admitted(lifecycle: Lifecycle): Lifecycle {
    if lifecycle.Draining? then Running else lifecycle
  }

  function Drained(lifecycle: Lifecycle): Lifecycle {
    if lifecycle.Running? then Draining else lifecycle
  }

  class AppLifecycle {
    var state: Lifecycle

    constructor ()
      ensures state == Running
    {
      state := Running;
    }

    method AdmitInitialize() returns (accepted: bool, abortedDraining: bool)
      modifies this
      ensures state == Admitted(old(state))
      ensures accepted == (state == Running) && abortedDraining == (old(state) == Draining)
    {
      match state {
        case Running => accepted, abortedDraining := true, false;
        case Draining =>
          state := Running;
          accepted, abortedDraining := true, true;
        case Stopping => accepted, abortedDraining := false, false;
      }
    }

    method BeginDraining()
      modifies this
      ensures state == Drained(old(state))
    {
      if state == Running {
        state := Draining;
      }
    }

    method RequestShutdown() returns (planned: bool)
      modifies this
      ensures state == Stopping && planned == (old(state) != Stopping)
    {
      if state == Stopping {
        return false;
      }
      state := Stopping;
      planned := true;
    }
  }

  // ---------------------------------------------------------------- requests

  datatype Request =
    | InitializeRequest(context: Context, version: Option<Version>)
    | PrepareRequest(connection: ConnectionId, attempt: string, stopActiveWork: bool, activeWork: Option<bool>)
    | CommitRequest(connection: ConnectionId, attempt: string)
    | AbortRequest(connection: ConnectionId, attempt: string)
    | DetachRequest(connection: ConnectionId)
    | SubscribeRequest(connection: ConnectionId, scope: R.Scope, readable: bool)
    | UnsubscribeRequest(connection: ConnectionId, scope: R.Scope)
    | ConnectionClosed(connection: ConnectionId)
    | ConnectionActive(connection: ConnectionId)
    | GraceEnded(client: ClientId)
    | SweepDue
    | ShutdownRequested

  function ClientOf(h: Hub, connection: ConnectionId): Option<ClientId> {
    if connection in h.connections && h.connections[connection] in h.clients
    then Some(h.connections[connection]) else None
  }

  /** Another client, not a shell's own hold, shares ownership of this App Server. */
  predicate HasOtherOwner(h: Hub, client: ClientId) {
    exists c :: c in h.clients && c != client && !h.clients[c].context.role.ShellHold?
  }

  predicate ValidAttempt(attempt: string) {
    attempt != "" && T.ByteLength(attempt) <= 128
  }

  function HandleInitialize(e: Edge, server: Version, policy: Policy, context: Context, version: Option<Version>, now: nat)
    : (Edge, Answer)
  {
    if version.Some? && !AcceptsClient(server, version.value) then (e, IncompatibleProtocol)
    else if e.barrier.Some? && e.barrier.value.owner != context.client then (e, UpdateInProgress)
    else
      var admitted := e.(barrier := None, lifecycle := Admitted(e.lifecycle));
      if e.lifecycle.Stopping? then (admitted, ServerStopping)
      else (admitted.(hub := Initialize(e.hub, policy, context, now)), Accepted)
  }

  function HandlePrepare(e: Edge, client: ClientId, attempt: string, stopActiveWork: bool, activeWork: Option<bool>): (Edge, Answer) {
    if e.barrier.Some? then
      (e, if e.barrier.value.owner == client && e.barrier.value.attempt == attempt then Ready else Blocked)
    else if HasOtherOwner(e.hub, client) then (e, Blocked)
    else if activeWork.None? then (e, ReadinessFailed)
    else if !stopActiveWork && activeWork.value then (e, Blocked)
    else (e.(barrier := Some(Barrier(client, attempt, false))), Ready)
  }

  predicate Owns(barrier: Option<Barrier>, client: ClientId, attempt: string) {
    barrier.Some? && barrier.value.owner == client && barrier.value.attempt == attempt
  }

  function NotOf(gone: set<ClientId>): R.Subscription -> bool {
    (s: R.Subscription) => s.client !in gone
  }

  function WithoutClients(subscriptions: seq<R.Subscription>, gone: set<ClientId>): seq<R.Subscription> {
    Filter(subscriptions, NotOf(gone))
  }

  /** Removing clients: their subscriptions go with them, and the last one to go starts the drain. */
  function Leaves(e: Edge, next: Hub): Edge {
    e.(hub := next,
       subscriptions := WithoutClients(e.subscriptions, e.hub.clients.Keys - next.clients.Keys),
       lifecycle := if next.clients == map[] && e.hub.clients != map[] then Drained(e.lifecycle) else e.lifecycle)
  }

  function Handle(e: Edge, server: Version, policy: Policy, request: Request, now: nat): (Edge, Answer) {
    match request
    case InitializeRequest(context, version) => HandleInitialize(e, server, policy, context, version, now)
    case ConnectionClosed(connection) => (e.(hub := TransportClosed(e.hub, policy, connection, now)), Accepted)
    case ConnectionActive(connection) => (e.(hub := Activity(e.hub, policy, connection, now)), Accepted)
    case GraceEnded(client) => (Leaves(e, ExpireAfterGrace(e.hub, client, now)), Accepted)
    case SweepDue => (Leaves(e, Sweep(e.hub, policy, now)), Accepted)
    case ShutdownRequested => (e.(lifecycle := Stopping), Accepted)
    case PrepareRequest(connection, attempt, stop, work) =>
      var client := ClientOf(e.hub, connection);
      if client.None? then (e, NotInitialized)
      else
        var seen := e.(hub := Activity(e.hub, policy, connection, now));
        if !ValidAttempt(attempt) then (seen, InvalidAttempt) else HandlePrepare(seen, client.value, attempt, stop, work)
    case CommitRequest(connection, attempt) =>
      var client := ClientOf(e.hub, connection);
      if client.None? then (e, NotInitialized)
      else
        var seen := e.(hub := Activity(e.hub, policy, connection, now));
        if Owns(e.barrier, client.value, attempt)
        then (seen.(barrier := Some(e.barrier.value.(committed := true))), Accepted)
        else (seen, InvalidAttempt)
    case AbortRequest(connection, attempt) =>
      var client := ClientOf(e.hub, connection);
      if client.None? then (e, NotInitialized)
      else
        var seen := e.(hub := Activity(e.hub, policy, connection, now));
        if Owns(e.barrier, client.value, attempt) then (seen.(barrier := None), Accepted) else (seen, InvalidAttempt)
    case DetachRequest(connection) =>
      var client := ClientOf(e.hub, connection);
      if client.None? then (e, NotInitialized)
      else
        var seen := e.(hub := Activity(e.hub, policy, connection, now));
        (Leaves(seen, Detach(seen.hub, client.value)), Accepted)
    case SubscribeRequest(connection, scope, readable) =>
      var client := ClientOf(e.hub, connection);
      if client.None? then (e, NotInitialized)
      else
        var seen := e.(hub := Activity(e.hub, policy, connection, now));
        if e.barrier.Some? then (seen, UpdateInProgress)
        else if !readable then (seen, Unreadable)
        else (seen.(subscriptions := Upserted(e.subscriptions, R.Subscription(client.value, scope))), Accepted)
    case UnsubscribeRequest(connection, scope) =>
      var client := ClientOf(e.hub, connection);
      if client.None? then (e, NotInitialized)
      else
        var seen := e.(hub := Activity(e.hub, policy, connection, now));
        if e.barrier.Some? then (seen, UpdateInProgress)
        else (seen.(subscriptions := Without(e.subscriptions, client.value, scope)), Accepted)
  }

  // ---------------------------------------------------------------- runs

  datatype Arrival = Arrival(request: Request, now: nat)

  function After(server: Version, policy: Policy, arrivals: seq<Arrival>, n: nat): Edge
    requires n <= |arrivals|
  {
    if n == 0 then Edge(Hub(map[], map[], false), Running, None, [])
    else Handle(After(server, policy, arrivals, n - 1), server, policy, arrivals[n - 1].request, arrivals[n - 1].now).0
  }

  /** Unless it is stopping, the server drains exactly while it has had clients and has none; and
      while the barrier stands, nobody but its owner shares ownership. */
  predicate Settled(e: Edge) {
    && (!e.lifecycle.Stopping? ==> (e.lifecycle.Draining? <==> e.hub.everInitialized && e.hub.clients == map[]))
    && (e.hub.clients != map[] ==> e.hub.everInitialized)
    && (e.barrier.Some? ==> !HasOtherOwner(e.hub, e.barrier.value.owner))
  }

  /** Every client of `next` was there before, in the same role. */
  predicate NoOneNew(h: Hub, next: Hub) {
    && next.everInitialized == h.everInitialized
    && forall c :: c in next.clients ==> c in h.clients && next.clients[c].context.role == h.clients[c].context.role
  }

  lemma HubCallsAddNoOne(h: Hub, policy: Policy, connection: ConnectionId, client: ClientId, now: nat)
    ensures NoOneNew(h, TransportClosed(h, policy, connection, now)) && NoOneNew(h, Activity(h, policy, connection, now))
    ensures NoOneNew(h, ExpireAfterGrace(h, client, now)) && NoOneNew(h, Sweep(h, policy, now)) && NoOneNew(h, Detach(h, client))
    ensures TransportClosed(h, policy, connection, now).clients == map[] <==> h.clients == map[]
    ensures Activity(h, policy, connection, now).clients == map[] <==> h.clients == map[]
  {
  }

  lemma NoOneNewKeepsOwners(h: Hub, next: Hub, client: ClientId)
    requires NoOneNew(h, next) && !HasOtherOwner(h, client)
    ensures !HasOtherOwner(next, client)
  {
  }

  /** What one request can do to the three parts at once. */
  lemma RequestEffects(e: Edge, server: Version, policy: Policy, request: Request, now: nat)
    ensures var (next, answer) := Handle(e, server, policy, request, now);
            && (e.lifecycle.Stopping? ==> next.lifecycle.Stopping?)
            && (request.InitializeRequest? && answer.Accepted? ==>
                  next.lifecycle.Running? && next.barrier.None? && request.context.client in next.hub.clients)
            && (!(request.InitializeRequest? && answer.Accepted?) ==> NoOneNew(e.hub, next.hub))
            && (e.barrier.Some? && request.InitializeRequest? && answer.Accepted? ==>
                  request.context.client == e.barrier.value.owner && !e.lifecycle.Stopping?)
            && (e.lifecycle.Stopping? ==> !(request.InitializeRequest? && answer.Accepted?))
  {
    hide Sweep, Activity, TransportClosed, ExpireAfterGrace, Detach, NoOneNew;
    OthersAddNoOne(e, server, policy, request, now);
  }

  lemma NoOneIsNotNew(h: Hub)
    ensures NoOneNew(h, h)
  {
  }

  lemma NoOneNewTwice(a: Hub, b: Hub, c: Hub)
    requires NoOneNew(a, b) && NoOneNew(b, c)
    ensures NoOneNew(a, c)
  {
  }

  lemma OthersAddNoOne(e: Edge, server: Version, policy: Policy, request: Request, now: nat)
    ensures var (next, answer) := Handle(e, server, policy, request, now);
            !(request.InitializeRequest? && answer.Accepted?) ==> NoOneNew(e.hub, next.hub)
  {
    hide Sweep, Activity, TransportClosed, ExpireAfterGrace, Detach, HasOtherOwner, Initialize, WithoutClients, NoOneNew;
    NoOneIsNotNew(e.hub);
    match request
    case ConnectionClosed(connection) => HubCallsAddNoOne(e.hub, policy, connection, ClientId(""), now);
    case ConnectionActive(connection) => HubCallsAddNoOne(e.hub, policy, connection, ClientId(""), now);
    case GraceEnded(client) => HubCallsAddNoOne(e.hub, policy, ConnectionId(""), client, now);
    case SweepDue => HubCallsAddNoOne(e.hub, policy, ConnectionId(""), ClientId(""), now);
    case PrepareRequest(connection, _, _, _) => HubCallsAddNoOne(e.hub, policy, connection, ClientId(""), now);
    case CommitRequest(connection, _) => HubCallsAddNoOne(e.hub, policy, connection, ClientId(""), now);
    case AbortRequest(connection, _) => HubCallsAddNoOne(e.hub, policy, connection, ClientId(""), now);
    case SubscribeRequest(connection, _, _) => HubCallsAddNoOne(e.hub, policy, connection, ClientId(""), now);
    case UnsubscribeRequest(connection, _) => HubCallsAddNoOne(e.hub, policy, connection, ClientId(""), now);
    case DetachRequest(connection) =>
      HubCallsAddNoOne(e.hub, policy, connection, ClientId(""), now);
      if ClientOf(e.hub, connection).Some? {
        var seen := Activity(e.hub, policy, connection, now);
        HubCallsAddNoOne(seen, policy, connection, ClientOf(e.hub, connection).value, now);
        NoOneNewTwice(e.hub, seen, Detach(seen, ClientOf(e.hub, connection).value));
      }
    case _ =>
  }

  lemma RequestKeepsSettled(e: Edge, server: Version, policy: Policy, request: Request, now: nat)
    requires Settled(e)
    ensures Settled(Handle(e, server, policy, request, now).0)
  {
    RequestEffects(e, server, policy, request, now);
    var next := Handle(e, server, policy, request, now).0;
    if e.barrier.Some? && NoOneNew(e.hub, next.hub) {
      NoOneNewKeepsOwners(e.hub, next.hub, e.barrier.value.owner);
    }
  }

  lemma {:induction false} EveryEdgeIsSettled(server: Version, policy: Policy, arrivals: seq<Arrival>, n: nat)
    requires n <= |arrivals|
    ensures Settled(After(server, policy, arrivals, n))
  {
    hide Handle;
    if n > 0 {
      EveryEdgeIsSettled(server, policy, arrivals, n - 1);
      RequestKeepsSettled(After(server, policy, arrivals, n - 1), server, policy, arrivals[n - 1].request, arrivals[n - 1].now);
    }
  }

  // ---------------------------------------------------------------- subscribers are reachable

  /** Every subscription belongs to a client the hub still knows. */
  predicate Backed(e: Edge) {
    forall s :: s in e.subscriptions ==> s.client in e.hub.clients
  }

  /** The request leaves every client of the hub in place. */
  predicate KeepsEveryone(request: Request) {
    !request.DetachRequest? && !request.GraceEnded? && !request.SweepDue?
  }

  lemma EveryoneKept(e: Edge, server: Version, policy: Policy, request: Request, now: nat)
    requires KeepsEveryone(request)
    ensures e.hub.clients.Keys <= Handle(e, server, policy, request, now).0.hub.clients.Keys
  {
  }

  lemma RequestKeepsBacked(e: Edge, server: Version, policy: Policy, request: Request, now: nat)
    requires Backed(e)
    ensures Backed(Handle(e, server, policy, request, now).0)
  {
    var next := Handle(e, server, policy, request, now).0;
    if KeepsEveryone(request) {
      EveryoneKept(e, server, policy, request, now);
      assert forall s :: s in next.subscriptions ==> s in e.subscriptions || s.client in e.hub.clients by {
        hide Activity, Sweep, TransportClosed, HasOtherOwner;
      }
    } else {
      hide Sweep, ExpireAfterGrace, Detach;
    }
  }

  /** In every reachable state each subscription belongs to a client the hub knows. */
  lemma {:induction false} EverySubscriberIsPresent(server: Version, policy: Policy, arrivals: seq<Arrival>, n: nat)
    requires n <= |arrivals|
    ensures Backed(After(server, policy, arrivals, n))
  {
    hide Handle;
    if n > 0 {
      EverySubscriberIsPresent(server, policy, arrivals, n - 1);
      RequestKeepsBacked(After(server, policy, arrivals, n - 1), server, policy, arrivals[n - 1].request, arrivals[n - 1].now);
    }
  }

  /** An admitted initialize over a connection that speaks for another client. */
  predicate TakesOver(e: Edge, server: Version, policy: Policy, request: Request, now: nat) {
    && request.InitializeRequest? && Handle(e, server, policy, request, now).1.Accepted?
    && HR.TakesOver(e.hub, HR.Initialized(request.context))
  }

  lemma HubCallKeeps(h: Hub, policy: Policy, call: HR.Call, now: nat)
    requires Mapped(h)
    ensures var next := HR.Next(h, policy, HR.Step(call, now));
            Mapped(next) && (Answerable(h) && !HR.TakesOver(h, call) ==> Answerable(next))
  {
    hide Mapped, Answerable, HR.TakesOver;
    HR.StepKeepsMapped(h, policy, HR.Step(call, now));
  }

  lemma RequestKeepsMapped(e: Edge, server: Version, policy: Policy, request: Request, now: nat)
    requires Mapped(e.hub)
    ensures var next := Handle(e, server, policy, request, now).0;
            Mapped(next.hub) && (Answerable(e.hub) && !TakesOver(e, server, policy, request, now) ==> Answerable(next.hub))
  {
    hide Mapped, Answerable, Sweep, Activity, TransportClosed, ExpireAfterGrace, Detach, Initialize, HasOtherOwner;
    match request
    case InitializeRequest(context, _) => HubCallKeeps(e.hub, policy, HR.Initialized(context), now);
    case ConnectionClosed(connection) => HubCallKeeps(e.hub, policy, HR.Closed(connection), now);
    case GraceEnded(client) => HubCallKeeps(e.hub, policy, HR.GraceChecked(client), now);
    case SweepDue => HubCallKeeps(e.hub, policy, HR.Swept, now);
    case ShutdownRequested =>
    case DetachRequest(connection) => DetachKeepsMapped(e.hub, policy, connection, now);
    case _ => ActivityKeepsMapped(e.hub, policy, request.connection, now);
  }

  lemma ActivityKeepsMapped(h: Hub, policy: Policy, connection: ConnectionId, now: nat)
    requires Mapped(h)
    ensures var seen := Activity(h, policy, connection, now); Mapped(seen) && (Answerable(h) ==> Answerable(seen))
  {
    HubCallKeeps(h, policy, HR.Active(connection), now);
    hide Mapped, Answerable, Activity;
  }

  lemma DetachKeepsMapped(h: Hub, policy: Policy, connection: ConnectionId, now: nat)
    requires Mapped(h)
    ensures ClientOf(h, connection).Some? ==>
              var next := Detach(Activity(h, policy, connection, now), ClientOf(h, connection).value);
              Mapped(next) && (Answerable(h) ==> Answerable(next))
  {
    ActivityKeepsMapped(h, policy, connection, now);
    if ClientOf(h, connection).Some? {
      HubCallKeeps(Activity(h, policy, connection, now), policy, HR.Detached(ClientOf(h, connection).value), now);
    }
    hide Mapped, Answerable, Activity;
  }

  predicate NobodyTakenOver(server: Version, policy: Policy, arrivals: seq<Arrival>, n: nat)
    requires n <= |arrivals|
  {
    forall i :: 0 <= i < n ==> !TakesOver(After(server, policy, arrivals, i), server, policy, arrivals[i].request, arrivals[i].now)
  }

  lemma {:induction false} EveryEdgeIsMapped(server: Version, policy: Policy, arrivals: seq<Arrival>, n: nat)
    requires n <= |arrivals|
    ensures Mapped(After(server, policy, arrivals, n).hub)
    ensures NobodyTakenOver(server, policy, arrivals, n) ==> Answerable(After(server, policy, arrivals, n).hub)
  {
    hide Handle, Mapped, Answerable, TakesOver;
    if n == 0 {
      HR.EmptyHubIsMapped();
    } else {
      EveryEdgeIsMapped(server, policy, arrivals, n - 1);
      RequestKeepsMapped(After(server, policy, arrivals, n - 1), server, policy, arrivals[n - 1].request, arrivals[n - 1].now);
    }
  }

  /** The connection an event for the client goes to speaks for that client. */
  predicate Reaches(h: Hub, client: ClientId) {
    client in Deliveries(h) && Deliveries(h)[client] in h.connections && h.connections[Deliveries(h)[client]] == client
  }

  /** Publication always finds a delivery for a subscriber.  The delivery reaches it only while it is
      not in reconnect grace, and, unless a connection was taken over, exactly then: an event for a
      client in grace goes to a connection that no longer speaks for it. */
  lemma EverySubscriberIsReachable(server: Version, policy: Policy, arrivals: seq<Arrival>, n: nat, s: R.Subscription)
    requires n <= |arrivals| && s in After(server, policy, arrivals, n).subscriptions
    ensures var h := After(server, policy, arrivals, n).hub;
            && s.client in h.clients && s.client in Deliveries(h)
            && (Reaches(h, s.client) ==> h.clients[s.client].graceUntil.None?)
            && (NobodyTakenOver(server, policy, arrivals, n) ==>
                  (Reaches(h, s.client) <==> h.clients[s.client].graceUntil.None?))
  {
    hide After, NobodyTakenOver;
    EverySubscriberIsPresent(server, policy, arrivals, n);
    EveryEdgeIsMapped(server, policy, arrivals, n);
  }

  /** The process owner's question "drained after the last client?" is answered by the lifecycle
      alone in every reachable state. */
  predicate ShouldShutdownAfterLastClient(e: Edge) {
    e.lifecycle.Draining? && e.hub.everInitialized && e.hub.clients == map[]
  }

  lemma DrainingDecidesShutdown(server: Version, policy: Policy, arrivals: seq<Arrival>, n: nat)
    requires n <= |arrivals|
    ensures var e := After(server, policy, arrivals, n);
            ShouldShutdownAfterLastClient(e) <==> e.lifecycle.Draining?
  {
    EveryEdgeIsSettled(server, policy, arrivals, n);
  }

  /** Once stopping, always stopping, and no client is ever admitted again. */
  lemma {:induction false} StoppingIsForever(server: Version, policy: Policy, arrivals: seq<Arrival>, i: nat, j: nat)
    requires i <= j <= |arrivals| && After(server, policy, arrivals, i).lifecycle.Stopping?
    ensures After(server, policy, arrivals, j).lifecycle.Stopping?
    ensures After(server, policy, arrivals, j).hub.clients.Keys <= After(server, policy, arrivals, i).hub.clients.Keys
    decreases j - i
  {
    hide Handle;
    if i < j {
      StoppingIsForever(server, policy, arrivals, i, j - 1);
      RequestEffects(After(server, policy, arrivals, j - 1), server, policy, arrivals[j - 1].request, arrivals[j - 1].now);
    }
  }

  /** The barrier stands in every state of the stretch. */
  predicate BarrierStands(server: Version, policy: Policy, arrivals: seq<Arrival>, i: nat, j: nat)
    requires i <= j <= |arrivals|
  {
    forall k :: i <= k <= j ==> After(server, policy, arrivals, k).barrier.Some?
  }

  /** While the barrier stands it keeps its owner and attempt, and no client joins; what ends it is
      its owner, who aborts or initializes again. */
  lemma {:induction false} BarrierHoldsEveryoneOut(server: Version, policy: Policy, arrivals: seq<Arrival>, i: nat, j: nat)
    requires i <= j <= |arrivals| && BarrierStands(server, policy, arrivals, i, j)
    ensures var a, b := After(server, policy, arrivals, i), After(server, policy, arrivals, j);
            && b.barrier.value.owner == a.barrier.value.owner && b.barrier.value.attempt == a.barrier.value.attempt
            && (a.barrier.value.committed ==> b.barrier.value.committed)
            && b.hub.clients.Keys <= a.hub.clients.Keys
    decreases j - i
  {
    hide Handle;
    if i < j {
      BarrierHoldsEveryoneOut(server, policy, arrivals, i, j - 1);
      assert After(server, policy, arrivals, j).barrier.Some?;
      RequestEffects(After(server, policy, arrivals, j - 1), server, policy, arrivals[j - 1].request, arrivals[j - 1].now);
      BarrierEndsByItsOwner(After(server, policy, arrivals, j - 1), server, policy, arrivals[j - 1].request, arrivals[j - 1].now);
    }
  }

  lemma BarrierEndsByItsOwner(e: Edge, server: Version, policy: Policy, request: Request, now: nat)
    requires e.barrier.Some?
    ensures var next := Handle(e, server, policy, request, now).0;
            if next.barrier.None? then
              || (request.InitializeRequest? && request.context.client == e.barrier.value.owner)
              || (request.AbortRequest? && ClientOf(e.hub, request.connection) == Some(e.barrier.value.owner)
                  && request.attempt == e.barrier.value.attempt)
            else
              && next.barrier.value.(committed := e.barrier.value.committed) == e.barrier.value
              && (e.barrier.value.committed ==> next.barrier.value.committed)
  {
  }

  // ---------------------------------------------------------------- who is admitted

  /** The versions a client may speak: the server's major, and a minor no newer than the server's; a
      client that names none is taken at its word. */
  predicate Speaks(server: Version, version: Option<Version>) {
    version.None? || (version.value.major == server.major && version.value.minor <= server.minor)
  }

  predicate MayInitialize(e: Edge, server: Version, request: Request) {
    && request.InitializeRequest? && Speaks(server, request.version) && !e.lifecycle.Stopping?
    && (e.barrier.None? || e.barrier.value.owner == request.context.client)
  }

  /** An initialize is accepted exactly when its version fits, the server is not stopping and no other
      client holds the barrier; a refusal leaves hub and subscriptions as they were. */
  lemma AdmittedExactlyWhenFitting(e: Edge, server: Version, policy: Policy, request: Request, now: nat)
    requires request.InitializeRequest?
    ensures var (next, answer) := Handle(e, server, policy, request, now);
            && (answer.Accepted? <==> MayInitialize(e, server, request))
            && next.subscriptions == e.subscriptions && (!answer.Accepted? ==> next.hub == e.hub)
  {
    hide Initialize;
  }

  /** Over any run, every client the hub knows was admitted by an initialize of its own that fitted. */
  lemma {:induction false} EveryClientWasAdmitted(server: Version, policy: Policy, arrivals: seq<Arrival>, n: nat, c: ClientId)
    returns (i: nat)
    requires n <= |arrivals| && c in After(server, policy, arrivals, n).hub.clients
    ensures i < n && MayInitialize(After(server, policy, arrivals, i), server, arrivals[i].request)
    ensures arrivals[i].request.context.client == c
    decreases n
  {
    hide Handle, MayInitialize, NoOneNew;
    var e, request, now := After(server, policy, arrivals, n - 1), arrivals[n - 1].request, arrivals[n - 1].now;
    RequestEffects(e, server, policy, request, now);
    if request.InitializeRequest? && Handle(e, server, policy, request, now).1.Accepted? {
      AdmittedExactlyWhenFitting(e, server, policy, request, now);
      InitializedAlone(e, server, policy, request, now, c);
      if request.context.client == c {
        i := n - 1;
      } else {
        i := EveryClientWasAdmitted(server, policy, arrivals, n - 1, c);
      }
    } else {
      NoOneElse(e.hub, Handle(e, server, policy, request, now).0.hub, c);
      i := EveryClientWasAdmitted(server, policy, arrivals, n - 1, c);
    }
  }

  lemma NoOneElse(h: Hub, next: Hub, c: ClientId)
    requires NoOneNew(h, next) && c in next.clients
    ensures c in h.clients
  {
  }

  lemma InitializedAlone(e: Edge, server: Version, policy: Policy, request: Request, now: nat, c: ClientId)
    requires request.InitializeRequest?
    ensures c in Handle(e, server, policy, request, now).0.hub.clients ==> c in e.hub.clients || c == request.context.client
  {
  }

  // ---------------------------------------------------------------- when the barrier goes up

  /** The request may raise the barrier for the client: the attempt is well formed, nobody else shares
      the server, and no work is going on or it may be stopped. */
  predicate MayRaise(e: Edge, request: Request, client: ClientId) {
    && request.PrepareRequest? && ClientOf(e.hub, request.connection) == Some(client)
    && 0 < |request.attempt| && T.ByteLength(request.attempt) <= 128
    && (forall c :: c in e.hub.clients && c != client ==> e.hub.clients[c].context.role == ShellHold)
    && (request.activeWork == Some(false) || (request.activeWork == Some(true) && request.stopActiveWork))
  }

  lemma RolesStay(h: Hub, policy: Policy, connection: ConnectionId, now: nat, client: ClientId)
    ensures HasOtherOwner(Activity(h, policy, connection, now), client)
            <==> !(forall c :: c in h.clients && c != client ==> h.clients[c].context.role == ShellHold)
  {
    var seen := Activity(h, policy, connection, now);
    assert seen.clients.Keys == h.clients.Keys && forall c :: c in h.clients ==> seen.clients[c].context == h.clients[c].context;
    hide Activity;
    if c :| c in h.clients && c != client && h.clients[c].context.role != ShellHold {
      assert c in seen.clients && !seen.clients[c].context.role.ShellHold?;
    }
  }

  /** One request raises the barrier exactly when it may. */
  lemma RaisedExactlyWhenIdle(e: Edge, server: Version, policy: Policy, request: Request, now: nat)
    requires e.barrier.None?
    ensures var next := Handle(e, server, policy, request, now).0;
            && (next.barrier.Some? ==> MayRaise(e, request, next.barrier.value.owner)
                                       && next.barrier.value == Barrier(next.barrier.value.owner, request.attempt, false))
            && (forall c :: MayRaise(e, request, c) ==> next.barrier == Some(Barrier(c, request.attempt, false)))
  {
    hide Activity, Sweep, HasOtherOwner, Initialize, TransportClosed, ExpireAfterGrace, Detach, WithoutClients;
    if request.PrepareRequest? && ClientOf(e.hub, request.connection).Some? {
      RolesStay(e.hub, policy, request.connection, now, ClientOf(e.hub, request.connection).value);
      if Handle(e, server, policy, request, now).0.barrier.Some? {
        assert request.activeWork.Some? && (request.activeWork.value ==> request.stopActiveWork);
        assert request.activeWork == Some(request.activeWork.value);
      }
    }
  }

  /** Over any run, a barrier that stands was raised by a request that might raise it, and has stood
      since under the same owner and attempt. */
  lemma {:induction false} EveryBarrierWasRaised(server: Version, policy: Policy, arrivals: seq<Arrival>, n: nat) returns (i: nat)
    requires n <= |arrivals| && After(server, policy, arrivals, n).barrier.Some?
    ensures i < n && BarrierStands(server, policy, arrivals, i + 1, n) && After(server, policy, arrivals, i).barrier.None?
    ensures var barrier := After(server, policy, arrivals, n).barrier.value;
            MayRaise(After(server, policy, arrivals, i), arrivals[i].request, barrier.owner)
            && arrivals[i].request.attempt == barrier.attempt
    decreases n
  {
    hide Handle, MayRaise;
    var e, request, now := After(server, policy, arrivals, n - 1), arrivals[n - 1].request, arrivals[n - 1].now;
    if e.barrier.None? {
      RaisedExactlyWhenIdle(e, server, policy, request, now);
      i := n - 1;
    } else {
      BarrierEndsByItsOwner(e, server, policy, request, now);
      i := EveryBarrierWasRaised(server, policy, arrivals, n - 1);
    }
  }

  /** A client is told that it may go ahead exactly when the barrier is its own for this attempt, or it may
      raise one. */
  lemma ReadyExactlyForTheOwner(e: Edge, server: Version, policy: Policy, request: Request, now: nat)
    requires request.PrepareRequest?
    ensures Handle(e, server, policy, request, now).1.Ready?
            <==> ClientOf(e.hub, request.connection).Some? && ValidAttempt(request.attempt)
                 && if e.barrier.Some?
                    then e.barrier.value.owner == ClientOf(e.hub, request.connection).value && e.barrier.value.attempt == request.attempt
                    else MayRaise(e, request, ClientOf(e.hub, request.connection).value)
    ensures e.barrier.Some? ==> Handle(e, server, policy, request, now).0.barrier == e.barrier
  {
    hide Activity, MayRaise, HasOtherOwner;
    if e.barrier.None? {
      RaisedExactlyWhenIdle(e, server, policy, request, now);
    }
  }

  // ---------------------------------------------------------------- who is subscribed

  /** The request subscribes the client to the scope: it comes from that client, no barrier stands and the
      scope can be read. */
  predicate Subscribes(e: Edge, request: Request, s: R.Subscription) {
    && request.SubscribeRequest? && ClientOf(e.hub, request.connection) == Some(s.client) && request.scope == s.scope
    && e.barrier.None? && request.readable
  }

  predicate Unsubscribes(e: Edge, request: Request, s: R.Subscription) {
    && request.UnsubscribeRequest? && ClientOf(e.hub, request.connection) == Some(s.client) && request.scope == s.scope
    && e.barrier.None?
  }

  /** What one request makes of a subscription. */
  lemma RequestTurnsSubscription(e: Edge, server: Version, policy: Policy, request: Request, now: nat, s: R.Subscription)
    requires Backed(e)
    ensures var next := Handle(e, server, policy, request, now).0;
            s in next.subscriptions
            <==> || Subscribes(e, request, s)
                 || (s in e.subscriptions && !Unsubscribes(e, request, s) && s.client in next.hub.clients)
  {
    hide HasOtherOwner, Sweep, TransportClosed, ExpireAfterGrace, Detach;
    if KeepsEveryone(request) {
      EveryoneKept(e, server, policy, request, now);
    }
  }

  predicate SubscribedSince(server: Version, policy: Policy, arrivals: seq<Arrival>, i: nat, n: nat, s: R.Subscription)
    requires i < n <= |arrivals|
  {
    && Subscribes(After(server, policy, arrivals, i), arrivals[i].request, s)
    && forall k :: i < k < n ==> KeepsSubscription(server, policy, arrivals, k, s)
  }

  predicate KeepsSubscription(server: Version, policy: Policy, arrivals: seq<Arrival>, k: nat, s: R.Subscription)
    requires k < |arrivals|
  {
    !Unsubscribes(After(server, policy, arrivals, k), arrivals[k].request, s)
    && s.client in After(server, policy, arrivals, k + 1).hub.clients
  }

  /** Over any run, a client is subscribed to a scope if and only if some request subscribed it and since
      then it has neither unsubscribed nor gone. */
  lemma {:induction false} SubscribedExactlySince(server: Version, policy: Policy, arrivals: seq<Arrival>, n: nat, s: R.Subscription)
    requires n <= |arrivals|
    ensures s in After(server, policy, arrivals, n).subscriptions
            <==> exists i :: 0 <= i < n && SubscribedSince(server, policy, arrivals, i, n, s)
    decreases n
  {
    hide Handle, Subscribes, Unsubscribes;
    if n > 0 {
      var m := n - 1;
      SubscribedExactlySince(server, policy, arrivals, m, s);
      EverySubscriberIsPresent(server, policy, arrivals, m);
      RequestTurnsSubscription(After(server, policy, arrivals, m), server, policy, arrivals[m].request, arrivals[m].now, s);
      hide After;
      if Subscribes(After(server, policy, arrivals, m), arrivals[m].request, s) {
        assert SubscribedSince(server, policy, arrivals, m, n, s);
      } else {
        if i :| 0 <= i < m && SubscribedSince(server, policy, arrivals, i, m, s) && KeepsSubscription(server, policy, arrivals, m, s) {
          assert SubscribedSince(server, policy, arrivals, i, n, s);
        }
        if i :| 0 <= i < n && SubscribedSince(server, policy, arrivals, i, n, s) {
          assert KeepsSubscription(server, policy, arrivals, m, s);
          assert SubscribedSince(server, policy, arrivals, i, m, s);
        }
      }
    }
  }

  // ---------------------------------------------------------------- who is gone

  /** Nothing of the client is left: no record, no connection, no subscription. */
  predicate Gone(e: Edge, client: ClientId) {
    && client !in e.hub.clients
    && (forall k :: k in e.hub.connections ==> e.hub.connections[k] != client)
    && (forall s :: s in e.subscriptions ==> s.client != client)
  }

  /** The other clients keep their records, connections and subscriptions. */
  predicate OthersStay(e: Edge, next: Edge, client: ClientId) {
    && (forall c :: c in e.hub.clients && c != client ==> c in next.hub.clients && next.hub.clients[c] == e.hub.clients[c])
    && (forall k :: k in e.hub.connections && e.hub.connections[k] != client ==>
                      k in next.hub.connections && next.hub.connections[k] == e.hub.connections[k])
    && (forall s :: s in e.subscriptions && s.client != client ==> s in next.subscriptions)
  }

  /** A client that detaches is gone, and nobody else. */
  lemma DetachedIsGone(e: Edge, server: Version, policy: Policy, connection: ConnectionId, now: nat)
    requires ClientOf(e.hub, connection).Some?
    ensures var next := Handle(e, server, policy, DetachRequest(connection), now).0;
            var client := ClientOf(e.hub, connection).value;
            Gone(next, client) && OthersStay(e, next, client)
  {
    var client := ClientOf(e.hub, connection).value;
    var seen := Activity(e.hub, policy, connection, now);
    assert seen.clients.Keys - Detach(seen, client).clients.Keys == {client};
  }

  /** A client checked when its grace is over is gone, and nobody else; checked before, it stays. */
  lemma CheckedAfterGraceIsGone(e: Edge, server: Version, policy: Policy, client: ClientId, now: nat)
    requires client in e.hub.clients
    ensures var next, grace := Handle(e, server, policy, GraceEnded(client), now).0, e.hub.clients[client].graceUntil;
            && OthersStay(e, next, client)
            && (grace.Some? && now >= grace.value ==> Gone(next, client))
            && (grace.None? || now < grace.value ==> next.hub == e.hub && OthersStay(e, next, ClientId("")))
  {
    var next := ExpireAfterGrace(e.hub, client, now);
    assert GraceOver(e.hub.clients[client], now) ==> e.hub.clients.Keys - next.clients.Keys == {client};
    assert !GraceOver(e.hub.clients[client], now) ==> e.hub.clients.Keys - next.clients.Keys == {};
  }

  /** A sweep takes every client whose grace is over. */
  lemma SweptIsGone(e: Edge, server: Version, policy: Policy, client: ClientId, now: nat)
    requires client in e.hub.clients && e.hub.clients[client].graceUntil.Some? && now >= e.hub.clients[client].graceUntil.value
    ensures Gone(Handle(e, server, policy, SweepDue, now).0, client)
  {
    var next := Sweep(e.hub, policy, now);
    assert client in e.hub.clients.Keys - next.clients.Keys;
  }

  lemma RequestKeepsGone(e: Edge, server: Version, policy: Policy, request: Request, now: nat, client: ClientId)
    requires Gone(e, client) && !(request.InitializeRequest? && request.context.client == client)
    ensures Gone(Handle(e, server, policy, request, now).0, client)
  {
    hide HasOtherOwner;
  }

  /** Once gone, a client stays gone until it initializes again. */
  lemma {:induction false} GoneUntilInitialized(server: Version, policy: Policy, arrivals: seq<Arrival>, i: nat, j: nat, client: ClientId)
    requires i <= j <= |arrivals| && Gone(After(server, policy, arrivals, i), client)
    requires forall k :: i <= k < j ==> !(arrivals[k].request.InitializeRequest? && arrivals[k].request.context.client == client)
    ensures Gone(After(server, policy, arrivals, j), client)
    decreases j - i
  {
    hide Handle, Gone;
    if i < j {
      GoneUntilInitialized(server, policy, arrivals, i, j - 1, client);
      RequestKeepsGone(After(server, policy, arrivals, j - 1), server, policy, arrivals[j - 1].request, arrivals[j - 1].now, client);
    }
  }

  // ---------------------------------------------------------------- the gateway object

  lemma DroppingOne(subscriptions: seq<R.Subscription>, gone: set<ClientId>, client: ClientId)
    ensures WithoutClient(WithoutClients(subscriptions, gone), client) == WithoutClients(subscriptions, gone + {client})
  {
    FilterTwice(subscriptions, NotOf(gone), OtherThan(client), NotOf(gone + {client}));
  }

  lemma DroppingNobody(subscriptions: seq<R.Subscription>)
    ensures WithoutClients(subscriptions, {}) == subscriptions
  {
    FilterAll(subscriptions, NotOf({}));
  }

  class RpcGateway {
    const server: Version
    const hub: ClientHub
    const lifecycle: AppLifecycle
    const stream: StateStream
    var barrier: Option<Barrier>

    ghost function State(): Edge
      reads this, hub, lifecycle, stream
    {
      Edge(hub.State(), lifecycle.state, barrier, stream.subscriptions)
    }

    constructor (server: Version, policy: Policy, root: string, taskBound: nat, totalBound: nat)
      ensures this.server == server && hub.policy == policy && stream.Valid()
      ensures fresh(hub) && fresh(lifecycle) && fresh(stream) && fresh(stream.presence) && fresh(stream.taskChanges)
      ensures State() == Edge(Hub(map[], map[], false), Running, None, [])
    {
      this.server := server;
      hub := new ClientHub(policy);
      lifecycle := new AppLifecycle();
      stream := new StateStream(root, taskBound, totalBound);
      barrier := None;
    }

    method Initialize(context: Context, version: Option<Version>, now: nat) returns (answer: Answer)
      modifies this, hub, lifecycle
      ensures (State(), answer) == HandleInitialize(old(State()), server, hub.policy, context, version, now)
    {
      if version.Some? && !AcceptsClient(server, version.value) {
        return IncompatibleProtocol;
      }
      if barrier.Some? {
        if barrier.value.owner == context.client {
          barrier := None;
        } else {
          return UpdateInProgress;
        }
      }
      var accepted, _ := lifecycle.AdmitInitialize();
      if !accepted {
        return ServerStopping;
      }
      var _ := hub.InitializeClient(context, now);
      answer := Accepted;
    }

    method Detach(connection: ConnectionId, now: nat) returns (answer: Answer)
      requires stream.Valid()
      modifies hub, lifecycle, stream, stream.presence
      ensures stream.Valid()
      ensures (State(), answer) == Handle(old(State()), server, hub.policy, DetachRequest(connection), now)
    {
      if connection !in hub.connections || hub.connections[connection] !in hub.clients {
        return NotInitialized;
      }
      var client := hub.connections[connection];
      hub.ObserveConnectionActivity(connection, now);
      ghost var seen := hub.State();
      var _, lastClient := hub.DetachClient(client);
      DroppingNobody(stream.subscriptions);
      DroppingOne(stream.subscriptions, {}, client);
      assert seen.clients.Keys - hub.clients.Keys == {} + {client};
      stream.DropClientSubscriptions(client);
      if lastClient {
        lifecycle.BeginDraining();
      }
      answer := Accepted;
    }

    method ExpireInactiveClients(now: nat)
      requires stream.Valid()
      modifies hub, lifecycle, stream, stream.presence
      ensures stream.Valid()
      ensures State() == Handle(old(State()), server, hub.policy, SweepDue, now).0
    {
      ghost var before := hub.State();
      var batch := hub.ExpireInactiveClients(now);
      assert forall c :: c in batch.expired <==> c in before.clients.Keys - hub.clients.Keys;
      DropAll(batch.expired, before.clients.Keys - hub.clients.Keys);
      if batch.lastClientExpired {
        assert batch.expired[0] in before.clients;
        lifecycle.BeginDraining();
      }
    }

    method DropAll(clients: seq<ClientId>, ghost gone: set<ClientId>)
      requires stream.Valid() && forall c :: c in clients <==> c in gone
      modifies stream, stream.presence
      ensures stream.Valid() && stream.subscriptions == WithoutClients(old(stream.subscriptions), gone)
    {
      ghost var done: set<ClientId> := {};
      DroppingNobody(stream.subscriptions);
      for i := 0 to |clients|
        invariant stream.Valid() && forall c :: c in clients[..i] <==> c in done
        invariant stream.subscriptions == WithoutClients(old(stream.subscriptions), done)
      {
        DroppingOne(old(stream.subscriptions), done, clients[i]);
        stream.DropClientSubscriptions(clients[i]);
        done := done + {clients[i]};
        assert clients[..i + 1] == clients[..i] + [clients[i]];
      }
      assert clients[..|clients|] == clients;
      assert done == gone;
    }

    method PrepareUpdate(connection: ConnectionId, attempt: string, stopActiveWork: bool, activeWork: Option<bool>, now: nat)
      returns (answer: Answer)
      modifies this, hub
      ensures (State(), answer)
              == Handle(old(State()), server, hub.policy, PrepareRequest(connection, attempt, stopActiveWork, activeWork), now)
    {
      if connection !in hub.connections || hub.connections[connection] !in hub.clients {
        return NotInitialized;
      }
      var client := hub.connections[connection];
      hub.ObserveConnectionActivity(connection, now);
      if !ValidAttempt(attempt) {
        return InvalidAttempt;
      }
      if barrier.Some? {
        return if barrier.value.owner == client && barrier.value.attempt == attempt then Ready else Blocked;
      }
      if exists c :: c in hub.clients && c != client && !hub.clients[c].context.role.ShellHold? {
        return Blocked;
      }
      if activeWork.None? {
        return ReadinessFailed;
      }
      if !stopActiveWork && activeWork.value {
        return Blocked;
      }
      barrier := Some(Barrier(client, attempt, false));
      answer := Ready;
    }

    method CommitUpdate(connection: ConnectionId, attempt: string, now: nat) returns (answer: Answer)
      modifies this, hub
      ensures (State(), answer) == Handle(old(State()), server, hub.policy, CommitRequest(connection, attempt), now)
    {
      if connection !in hub.connections || hub.connections[connection] !in hub.clients {
        return NotInitialized;
      }
      var client := hub.connections[connection];
      hub.ObserveConnectionActivity(connection, now);
      if barrier.None? || barrier.value.owner != client || barrier.value.attempt != attempt {
        return InvalidAttempt;
      }
      if !barrier.value.committed {
        barrier := Some(barrier.value.(committed := true));
      }
      answer := Accepted;
    }

    method AbortUpdate(connection: ConnectionId, attempt: string, now: nat) returns (answer: Answer)
      modifies this, hub
      ensures (State(), answer) == Handle(old(State()), server, hub.policy, AbortRequest(connection, attempt), now)
    {
      if connection !in hub.connections || hub.connections[connection] !in hub.clients {
        return NotInitialized;
      }
      var client := hub.connections[connection];
      hub.ObserveConnectionActivity(connection, now);
      if barrier.None? || barrier.value.owner != client || barrier.value.attempt != attempt {
        return InvalidAttempt;
      }
      barrier := None;
      answer := Accepted;
    }
  }
}
