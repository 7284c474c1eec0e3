/**
 Runs of the client hub under a clock that never goes back: the maps agree in every reachable
 hub, a client is never expired early, and a silent one is gone after two late enough sweeps.
 */
module HubRuns {
  import opened Prelude
  import opened ClientHubs

  datatype Call =
    | Initialized(context: Context)
    | CapabilitiesChanged(client: ClientId, capabilities: set<string>)
    | Closed(connection: ConnectionId)
    | Active(connection: ConnectionId)
    | GraceChecked(client: ClientId)
    | Swept
    | Detached(client: ClientId)

  /** A call and the time it is made. */
  datatype Step = Step(call: Call, now: nat)

  function Next(h: Hub, policy: Policy, step: Step): Hub {
    match step.call
    case Initialized(context) => Initialize(h, policy, context, step.now)
    case CapabilitiesChanged(client, capabilities) => Capabilities(h, client, capabilities)
    case Closed(connection) => TransportClosed(h, policy, connection, step.now)
    case Active(connection) => Activity(h, policy, connection, step.now)
    case GraceChecked(client) => ExpireAfterGrace(h, client, step.now)
    case Swept => Sweep(h, policy, step.now)
    case Detached(client) => Detach(h, client)
  }

  /** The hub after the first `n` calls. */
  function After(policy: Policy, steps: seq<Step>, n: nat): Hub
    requires n <= |steps|
  {
    if n == 0 then Hub(map[], map[], false) else Next(After(policy, steps, n - 1), policy, steps[n - 1])
  }

  lemma OneMoreCall(policy: Policy, steps: seq<Step>, n: nat)
    requires n < |steps|
    ensures After(policy, steps, n + 1) == Next(After(policy, steps, n), policy, steps[n])
  {
    hide Next;
  }

  predicate Monotone(steps: seq<Step>) {
    forall i, j :: 0 <= i <= j < |steps| ==> steps[i].now <= steps[j].now
  }

  // ---------------------------------------------------------------- the maps agree

  lemma SweepKeepsMapped(h: Hub, policy: Policy, now: nat)
    requires Mapped(h)
    ensures Mapped(Sweep(h, policy, now))
    ensures Answerable(h) ==> Answerable(Sweep(h, policy, now))
  {
    var reconnecting := EnterGrace(h, policy, Silent(h, now), now);
    assert Mapped(reconnecting);
    assert Answerable(h) ==> Answerable(reconnecting);
    hide EnterGrace, Silent;
    assert forall c :: c in Overdue(reconnecting, now) ==> reconnecting.clients[c].graceUntil.Some?;
  }

  /** The call initializes a client over a connection that speaks for another one. */
  predicate TakesOver(h: Hub, call: Call) {
    && call.Initialized? && call.context.connection in h.connections
    && h.connections[call.context.connection] != call.context.client
  }

  lemma StepKeepsMapped(h: Hub, policy: Policy, step: Step)
    requires Mapped(h)
    ensures Mapped(Next(h, policy, step))
    ensures Answerable(h) && !TakesOver(h, step.call) ==> Answerable(Next(h, policy, step))
  {
    match step.call
    case Initialized(context) =>
      if Answerable(h) {
        InitializeStrandsExactlyTakenOver(h, policy, context, step.now);
      }
    case Swept => SweepKeepsMapped(h, policy, step.now);
    case _ =>
  }

  /** In every reachable hub each mapped connection names a present client that records it and is
      not reconnecting, so no client has two.  The converse holds as long as no call initializes a
      client over another client's connection. */
  lemma {:induction false} EveryHubIsMapped(policy: Policy, steps: seq<Step>, n: nat)
    requires n <= |steps|
    ensures Mapped(After(policy, steps, n))
    ensures (forall i :: 0 <= i < n ==> !TakesOver(After(policy, steps, i), steps[i].call)) ==> Answerable(After(policy, steps, n))
  {
    hide Next, Mapped, Answerable, TakesOver;
    if n == 0 {
      EmptyHubIsMapped();
    } else {
      EveryHubIsMapped(policy, steps, n - 1);
      StepKeepsMapped(After(policy, steps, n - 1), policy, steps[n - 1]);
    }
  }

  lemma EmptyHubIsMapped()
    ensures Mapped(Hub(map[], map[], false)) && Answerable(Hub(map[], map[], false))
  {
  }

  // ---------------------------------------------------------------- never early

  /** The client is present, is not silent before `live` and not removed before `live + grace`. */
  predicate Protected(h: Hub, policy: Policy, client: ClientId, live: nat) {
    && client in h.clients
    && (h.clients[client].graceUntil.None? ==> h.clients[client].liveUntil >= live)
    && (h.clients[client].graceUntil.Some? ==> h.clients[client].graceUntil.value >= live + policy.grace)
  }

  /** The call ends the client's transport. */
  predicate Closes(h: Hub, call: Call, client: ClientId) {
    call.Closed? && call.connection in h.connections && h.connections[call.connection] == client
  }

  lemma StepKeepsProtection(h: Hub, policy: Policy, step: Step, client: ClientId, live: nat)
    requires Protected(h, policy, client, live)
    requires step.now + policy.heartbeat >= live && step.now < live + policy.grace
    requires step.call != Detached(client) && (Closes(h, step.call, client) ==> step.now >= live)
    ensures Protected(Next(h, policy, step), policy, client, live)
  {
  }

  /** The call initializes the client or comes over its connection. */
  predicate Sees(h: Hub, call: Call, client: ClientId) {
    match call
    case Initialized(context) => context.client == client
    case Active(connection) => connection in h.connections && h.connections[connection] == client
    case _ => false
  }

  predicate SeenBy(policy: Policy, steps: seq<Step>, i: nat, client: ClientId)
    requires i < |steps|
  {
    Sees(After(policy, steps, i), steps[i].call, client)
  }

  /** No call in the stretch detaches the client, and none closes its transport before `live`. */
  predicate Undisturbed(policy: Policy, steps: seq<Step>, i: nat, j: nat, client: ClientId, live: nat)
    requires i <= j <= |steps|
  {
    forall k :: i <= k < j ==>
                  && steps[k].call != Detached(client)
                  && (Closes(After(policy, steps, k), steps[k].call, client) ==> steps[k].now >= live)
  }

  lemma {:induction false} ProtectionLasts(policy: Policy, steps: seq<Step>, i: nat, j: nat, client: ClientId, live: nat)
    requires Monotone(steps) && i <= j <= |steps| && Undisturbed(policy, steps, i, j, client, live)
    requires Protected(After(policy, steps, i), policy, client, live)
    requires i < j ==> steps[i].now + policy.heartbeat >= live && steps[j - 1].now < live + policy.grace
    ensures Protected(After(policy, steps, j), policy, client, live)
    decreases j - i
  {
    hide Protected, Next, Closes, After;
    if i < j {
      ProtectionLasts(policy, steps, i, j - 1, client, live);
      OneMoreCall(policy, steps, j - 1);
      StepKeepsProtection(After(policy, steps, j - 1), policy, steps[j - 1], client, live);
    }
  }

  lemma SeenIsProtected(policy: Policy, steps: seq<Step>, i: nat, client: ClientId)
    requires i < |steps| && SeenBy(policy, steps, i, client)
    ensures Protected(After(policy, steps, i + 1), policy, client, steps[i].now + policy.heartbeat)
    ensures After(policy, steps, i + 1).clients[client].graceUntil.None?
  {
    hide Next;
    EveryHubIsMapped(policy, steps, i);
    SeeingProtects(After(policy, steps, i), policy, steps[i], client);
  }

  lemma SeeingProtects(h: Hub, policy: Policy, step: Step, client: ClientId)
    requires Mapped(h) && Sees(h, step.call, client)
    ensures Protected(Next(h, policy, step), policy, client, step.now + policy.heartbeat)
    ensures Next(h, policy, step).clients[client].graceUntil.None?
  {
  }

  lemma ClosingProtects(h: Hub, policy: Policy, step: Step, client: ClientId)
    requires Mapped(h) && Closes(h, step.call, client)
    ensures Protected(Next(h, policy, step), policy, client, step.now)
  {
  }

  /** A client last seen at `t` keeps its place until `t + heartbeat + grace`, whatever sweeps run,
      unless it detaches or its transport closes earlier. */
  lemma SeenClientStays(policy: Policy, steps: seq<Step>, i: nat, j: nat, client: ClientId)
    requires Monotone(steps) && i < j <= |steps| && SeenBy(policy, steps, i, client)
    requires Undisturbed(policy, steps, i + 1, j, client, steps[i].now + policy.heartbeat)
    requires steps[j - 1].now < steps[i].now + policy.heartbeat + policy.grace
    ensures client in After(policy, steps, j).clients
  {
    hide Next, SeenBy, Undisturbed;
    SeenIsProtected(policy, steps, i, client);
    ProtectionLasts(policy, steps, i + 1, j, client, steps[i].now + policy.heartbeat);
  }

  /** Nor does a sweep take its connection before `t + heartbeat`. */
  lemma SweepTakesOnlySilentConnections(policy: Policy, steps: seq<Step>, i: nat, j: nat, client: ClientId, connection: ConnectionId)
    requires Monotone(steps) && i < j < |steps| && SeenBy(policy, steps, i, client) && steps[j].call == Swept
    requires Undisturbed(policy, steps, i + 1, j, client, steps[i].now + policy.heartbeat)
    requires connection in After(policy, steps, j).connections && After(policy, steps, j).connections[connection] == client
    requires connection !in After(policy, steps, j + 1).connections
    ensures steps[j].now >= steps[i].now + policy.heartbeat
  {
    hide Next, Mapped, SeenBy, Undisturbed;
    if steps[j - 1].now < steps[i].now + policy.heartbeat + policy.grace {
      EveryHubIsMapped(policy, steps, j);
      SeenIsProtected(policy, steps, i, client);
      ProtectionLasts(policy, steps, i + 1, j, client, steps[i].now + policy.heartbeat);
      SweepSparesTheLive(After(policy, steps, j), policy, steps[j], client, connection);
    }
  }

  lemma SweepSparesTheLive(h: Hub, policy: Policy, step: Step, client: ClientId, connection: ConnectionId)
    requires Mapped(h) && connection in h.connections && h.connections[connection] == client
    requires step.call == Swept && connection !in Next(h, policy, step).connections
    ensures client in h.clients && h.clients[client].graceUntil.None? && step.now >= h.clients[client].liveUntil
  {
    assert step.now < h.clients[client].liveUntil ==> client !in Silent(h, step.now);
  }

  /** A closed transport gives the whole grace from the close. */
  lemma ClosedClientStays(policy: Policy, steps: seq<Step>, i: nat, j: nat, client: ClientId)
    requires Monotone(steps) && i < j <= |steps| && Closes(After(policy, steps, i), steps[i].call, client)
    requires forall k :: i < k < j ==> steps[k].call != Detached(client)
    requires steps[j - 1].now < steps[i].now + policy.grace
    ensures client in After(policy, steps, j).clients
  {
    hide Next, Mapped, Closes;
    EveryHubIsMapped(policy, steps, i);
    ClosingProtects(After(policy, steps, i), policy, steps[i], client);
    ProtectionLasts(policy, steps, i + 1, j, client, steps[i].now);
  }

  // ---------------------------------------------------------------- never late

  /** No deadline lies further ahead than one period from now. */
  predicate Timely(h: Hub, policy: Policy, now: nat) {
    forall c :: c in h.clients ==>
                  && h.clients[c].liveUntil <= now + policy.heartbeat
                  && (h.clients[c].graceUntil.Some? ==> h.clients[c].graceUntil.value <= now + policy.grace)
  }

  lemma StepKeepsTimely(h: Hub, policy: Policy, now: nat, step: Step)
    requires Timely(h, policy, now) && now <= step.now
    ensures Timely(Next(h, policy, step), policy, step.now)
  {
  }

  lemma {:induction false} EveryHubIsTimely(policy: Policy, steps: seq<Step>, n: nat)
    requires Monotone(steps) && 0 < n <= |steps|
    ensures Timely(After(policy, steps, n), policy, steps[n - 1].now)
  {
    hide Next;
    if n > 1 {
      EveryHubIsTimely(policy, steps, n - 1);
      StepKeepsTimely(After(policy, steps, n - 1), policy, steps[n - 2].now, steps[n - 1]);
    } else {
      StepKeepsTimely(After(policy, steps, 0), policy, 0, steps[0]);
    }
  }

  /** No call in the stretch sees the client. */
  predicate Unseen(policy: Policy, steps: seq<Step>, i: nat, j: nat, client: ClientId)
    requires i <= j <= |steps|
  {
    forall k :: i <= k < j ==> !SeenBy(policy, steps, k, client)
  }

  /** The client's deadlines only wear down: gone, or reconnecting until `gone` at the latest. */
  predicate Leaving(h: Hub, client: ClientId, gone: nat) {
    client in h.clients ==> h.clients[client].graceUntil.Some? && h.clients[client].graceUntil.value <= gone
  }

  predicate Fading(h: Hub, policy: Policy, client: ClientId, live: nat) {
    client in h.clients && h.clients[client].graceUntil.None? ==> h.clients[client].liveUntil <= live
  }

  lemma StepWearsDown(h: Hub, policy: Policy, step: Step, client: ClientId, bound: nat)
    requires Mapped(h) && !Sees(h, step.call, client)
    ensures Fading(h, policy, client, bound) ==> Fading(Next(h, policy, step), policy, client, bound)
    ensures Leaving(h, client, bound) ==> Leaving(Next(h, policy, step), client, bound)
  {
  }

  lemma {:induction false} UnseenFades(policy: Policy, steps: seq<Step>, i: nat, j: nat, client: ClientId, live: nat)
    requires i <= j <= |steps| && Unseen(policy, steps, i, j, client)
    requires Fading(After(policy, steps, i), policy, client, live)
    ensures Fading(After(policy, steps, j), policy, client, live)
    decreases j - i
  {
    hide Next, Fading, Mapped, Sees, After;
    if i < j {
      UnseenFades(policy, steps, i, j - 1, client, live);
      OneMoreCall(policy, steps, j - 1);
      EveryHubIsMapped(policy, steps, j - 1);
      assert !SeenBy(policy, steps, j - 1, client);
      StepWearsDown(After(policy, steps, j - 1), policy, steps[j - 1], client, live);
    }
  }

  lemma {:induction false} LeavingStaysLeaving(policy: Policy, steps: seq<Step>, i: nat, j: nat, client: ClientId, gone: nat)
    requires i <= j <= |steps| && Unseen(policy, steps, i, j, client)
    requires Leaving(After(policy, steps, i), client, gone)
    ensures Leaving(After(policy, steps, j), client, gone)
    decreases j - i
  {
    hide Next, Leaving, Mapped, Sees, After;
    if i < j {
      LeavingStaysLeaving(policy, steps, i, j - 1, client, gone);
      OneMoreCall(policy, steps, j - 1);
      EveryHubIsMapped(policy, steps, j - 1);
      assert !SeenBy(policy, steps, j - 1, client);
      StepWearsDown(After(policy, steps, j - 1), policy, steps[j - 1], client, gone);
    }
  }

  /** A client not seen since call `i` is gone once one sweep has come a heartbeat timeout later and
      another a grace period after that one, whether or not a connection still speaks for it. */
  lemma SilentClientIsGone(policy: Policy, steps: seq<Step>, i: nat, first: nat, second: nat, client: ClientId)
    requires Monotone(steps) && i < first < second < |steps|
    requires Unseen(policy, steps, i + 1, second + 1, client)
    requires steps[first].call == Swept && steps[first].now >= steps[i].now + policy.heartbeat
    requires steps[second].call == Swept && steps[second].now >= steps[first].now + policy.grace
    ensures client !in After(policy, steps, second + 1).clients
  {
    hide Next, After, SeenBy, Leaving, Monotone;
    var gone := steps[first].now + policy.grace;
    SilentClientLeaves(policy, steps, i, first, client);
    OneMoreCall(policy, steps, second);
    LeavingStaysLeaving(policy, steps, first + 1, second, client, gone);
    LateSweepRemoves(After(policy, steps, second), policy, steps[second], client, gone);
  }

  /** The first late sweep starts the client's grace, if it has not started before. */
  lemma SilentClientLeaves(policy: Policy, steps: seq<Step>, i: nat, first: nat, client: ClientId)
    requires Monotone(steps) && i < first < |steps| && Unseen(policy, steps, i + 1, first, client)
    requires steps[first].call == Swept && steps[first].now >= steps[i].now + policy.heartbeat
    ensures Leaving(After(policy, steps, first + 1), client, steps[first].now + policy.grace)
  {
    hide Next, After, SeenBy, Leaving, Monotone, Unseen;
    var live := steps[i].now + policy.heartbeat;
    EveryHubIsTimely(policy, steps, i + 1);
    UnseenFades(policy, steps, i + 1, first, client, live);
    EveryHubIsTimely(policy, steps, first + 1);
    OneMoreCall(policy, steps, first);
    LateSweepStartsLeaving(After(policy, steps, first), policy, steps[first], client, live);
  }

  lemma LateSweepStartsLeaving(h: Hub, policy: Policy, step: Step, client: ClientId, live: nat)
    requires step.call == Swept && step.now >= live && Fading(h, policy, client, live)
    requires Timely(Next(h, policy, step), policy, step.now)
    ensures Leaving(Next(h, policy, step), client, step.now + policy.grace)
  {
  }

  lemma LateSweepRemoves(h: Hub, policy: Policy, step: Step, client: ClientId, gone: nat)
    requires step.call == Swept && step.now >= gone && Leaving(h, client, gone)
    ensures client !in Next(h, policy, step).clients
  {
  }
}
