/**
 The state stream (state_sync.rs): who follows which scope, one cursor per scope, and the
 publication of committed changes to their subscribers.
 */
module StateStreams {
  import opened Prelude
  import opened TaskCopies
  import opened ChangeLogs
  import opened Routing

  datatype Event = Event(subscription: Scope, previousCursor: nat, cursor: nat, scope: EventScope, payload: Payload)

  datatype EventDelivery = EventDelivery(client: ClientId, connection: ConnectionId, event: Event)

  /** One scope's subscribers, as publication groups them. */
  datatype Group = Group(scope: Scope, clients: seq<ClientId>)

  type Cursors = map<Scope, nat>

  type Presence = map<TaskId, set<ClientId>>

  /** A scope's stream starts at cursor 0 on first use. */
  function CursorOf(cursors: Cursors, scope: Scope): nat {
    if scope in cursors then cursors[scope] else 0
  }

  // ---------------------------------------------------------------- subscriptions and presence

  function Without(subscriptions: seq<Subscription>, client: ClientId, scope: Scope): seq<Subscription> {
    Filter(subscriptions, (s: Subscription) => s != Subscription(client, scope))
  }

  function OtherThan(client: ClientId): Subscription -> bool {
    (s: Subscription) => s.client != client
  }

  function WithoutClient(subscriptions: seq<Subscription>, client: ClientId): seq<Subscription> {
    Filter(subscriptions, OtherThan(client))
  }

  /** The presence index is the projection of the subscription list onto Task scopes, and a
      Task nobody follows has no entry. */
  ghost predicate Mirrors(presence: Presence, subscriptions: seq<Subscription>) {
    && (forall t :: t in presence ==> presence[t] != {})
    && (forall t, c :: (t in presence && c in presence[t]) <==> Subscription(c, Task(t)) in subscriptions)
  }

  /** Presence of a Task, as other workflows ask for it. */
  predicate HasSubscribers(presence: Presence, task: TaskId) {
    exists t :: t in presence && t == task && presence[t] != {}
  }

  lemma PresenceAnswersFromSubscriptions(presence: Presence, subscriptions: seq<Subscription>, task: TaskId)
    requires Mirrors(presence, subscriptions)
    ensures HasSubscribers(presence, task) <==> exists c :: Subscription(c, Task(task)) in subscriptions
  {
    if HasSubscribers(presence, task) {
      var c :| c in presence[task];
      assert Subscription(c, Task(task)) in subscriptions;
    }
  }

  // ---------------------------------------------------------------- publication

  function Matching(subscriptions: seq<Subscription>, event: EventScope, payload: Payload, root: string): (r: seq<Subscription>)
    ensures forall s :: s in r <==> s in subscriptions && EventMatches(event, payload, s, root)
  {
    Filter(subscriptions, s => EventMatches(event, payload, s, root))
  }

  /** Some subscriber follows the scope with this event. */
  predicate Touches(matching: seq<Subscription>, scope: Scope) {
    exists s :: s in matching && s.scope == scope
  }

  /** A scope's cursor moves by one exactly when the event reaches that scope. */
  ghost predicate CursorsAdvance(before: Cursors, after: Cursors, matching: seq<Subscription>) {
    forall scope ::
      CursorOf(after, scope) == CursorOf(before, scope) + if Touches(matching, scope) then 1 else 0
  }

  /** Every matching subscriber that is reachable gets the event exactly once, linked from its
      scope's cursor before the publication to the one after it; nobody else gets anything. */
  ghost predicate DeliversExactly(out: seq<EventDelivery>, matching: seq<Subscription>,
                                  connections: map<ClientId, ConnectionId>, before: Cursors,
                                  event: EventScope, payload: Payload)
  {
    && (forall i, j :: 0 <= i < j < |out| ==>
                         !(out[i].client == out[j].client && out[i].event.subscription == out[j].event.subscription))
    && (forall d :: d in out ==>
                      && Subscription(d.client, d.event.subscription) in matching
                      && d.client in connections && d.connection == connections[d.client]
                      && d.event == Linked(before, d.event.subscription, event, payload))
    && (forall s :: s in matching && s.client in connections ==>
                      EventDelivery(s.client, connections[s.client], Linked(before, s.scope, event, payload)) in out)
  }

  function Linked(before: Cursors, scope: Scope, event: EventScope, payload: Payload): Event {
    Event(scope, CursorOf(before, scope), CursorOf(before, scope) + 1, event, payload)
  }

  predicate Grouped(groups: seq<Group>, scope: Scope, client: ClientId) {
    exists g :: 0 <= g < |groups| && groups[g].scope == scope && client in groups[g].clients
  }

  /** Each scope once, each client once per scope. */
  predicate WellGrouped(groups: seq<Group>) {
    && (forall g, h :: 0 <= g < h < |groups| ==> groups[g].scope != groups[h].scope)
    && (forall g :: 0 <= g < |groups| ==> Distinct(groups[g].clients) && groups[g].clients != [])
  }

  function FindGroup(groups: seq<Group>, scope: Scope): (r: Option<nat>)
    ensures r.Some? ==> r.value < |groups| && groups[r.value].scope == scope
    ensures r.None? ==> forall g :: 0 <= g < |groups| ==> groups[g].scope != scope
  {
    if groups == [] then None
    else if groups[0].scope == scope then Some(0)
    else
      var rest := FindGroup(groups[1..], scope);
      if rest.None? then None else Some(rest.value + 1)
  }

  lemma AddingClient(groups: seq<Group>, at: nat, client: ClientId)
    requires WellGrouped(groups) && at < |groups| && client !in groups[at].clients
    ensures var next := groups[at := Group(groups[at].scope, groups[at].clients + [client])];
            && WellGrouped(next)
            && forall scope, c :: Grouped(next, scope, c) <==> Grouped(groups, scope, c) || (scope == groups[at].scope && c == client)
  {
    var next := groups[at := Group(groups[at].scope, groups[at].clients + [client])];
    forall scope, c
      ensures Grouped(next, scope, c) <==> Grouped(groups, scope, c) || (scope == groups[at].scope && c == client)
    {
      if Grouped(groups, scope, c) {
        var g :| 0 <= g < |groups| && groups[g].scope == scope && c in groups[g].clients;
        assert next[g].scope == scope && c in next[g].clients;
      }
      if scope == groups[at].scope && c == client {
        assert next[at].scope == scope && c in next[at].clients;
      }
    }
  }

  lemma AddingScope(groups: seq<Group>, scope: Scope, client: ClientId)
    requires WellGrouped(groups) && forall g :: 0 <= g < |groups| ==> groups[g].scope != scope
    ensures var next := groups + [Group(scope, [client])];
            && WellGrouped(next)
            && forall s, c :: Grouped(next, s, c) <==> Grouped(groups, s, c) || (s == scope && c == client)
  {
    var next := groups + [Group(scope, [client])];
    forall s, c
      ensures Grouped(next, s, c) <==> Grouped(groups, s, c) || (s == scope && c == client)
    {
      if Grouped(groups, s, c) {
        var g :| 0 <= g < |groups| && groups[g].scope == s && c in groups[g].clients;
        assert next[g].scope == s && c in next[g].clients;
      }
      if s == scope && c == client {
        assert next[|groups|].scope == s && c in next[|groups|].clients;
      }
    }
  }

  /** Groups the matching subscriptions by scope, in first-seen order. */
  method GroupByScope(matching: seq<Subscription>) returns (groups: seq<Group>)
    ensures WellGrouped(groups)
    ensures forall scope, c :: Grouped(groups, scope, c) <==> Subscription(c, scope) in matching
  {
    groups := [];
    for i := 0 to |matching|
      invariant WellGrouped(groups)
      invariant forall scope, c :: Grouped(groups, scope, c) <==> Subscription(c, scope) in matching[..i]
    {
      hide WellGrouped;
      var s := matching[i];
      assert matching[..i + 1] == matching[..i] + [s];
      var at := FindGroup(groups, s.scope);
      if at.Some? {
        if s.client !in groups[at.value].clients {
          AddingClient(groups, at.value, s.client);
          groups := groups[at.value := Group(s.scope, groups[at.value].clients + [s.client])];
        } else {
          assert Grouped(groups, s.scope, s.client);
        }
      } else {
        AddingScope(groups, s.scope, s.client);
        groups := groups + [Group(s.scope, [s.client])];
      }
    }
    assert matching[..|matching|] == matching;
  }

  lemma DeliverOne(out: seq<EventDelivery>, done: seq<Subscription>, next: Subscription,
                   connections: map<ClientId, ConnectionId>, before: Cursors, event: EventScope, payload: Payload)
    requires DeliversExactly(out, done, connections, before, event, payload) && next !in done
    ensures next.client !in connections ==> DeliversExactly(out, done + [next], connections, before, event, payload)
    ensures next.client in connections ==>
              DeliversExactly(out + [EventDelivery(next.client, connections[next.client], Linked(before, next.scope, event, payload))],
                              done + [next], connections, before, event, payload)
  {
    assert forall i :: 0 <= i < |out| ==> out[i] in out;
  }

  /** The subscriptions a group stands for. */
  function Subscribers(group: Group): (r: seq<Subscription>)
    ensures |r| == |group.clients| && forall i :: 0 <= i < |r| ==> r[i] == Subscription(group.clients[i], group.scope)
    ensures forall s :: s in r <==> s.scope == group.scope && s.client in group.clients
  {
    var r := seq(|group.clients|, i requires 0 <= i < |group.clients| => Subscription(group.clients[i], group.scope));
    assert forall i :: 0 <= i < |r| ==> r[i] in r;
    r
  }

  /** Sends one scope's subscribers the event, linked along `link`. */
  method EmitGroup(group: Group, connections: map<ClientId, ConnectionId>, link: (nat, nat), event: EventScope,
                   payload: Payload, ghost before: Cursors, sent: seq<EventDelivery>, ghost done: seq<Subscription>)
    returns (out: seq<EventDelivery>)
    requires link == (CursorOf(before, group.scope), CursorOf(before, group.scope) + 1)
    requires Distinct(group.clients) && forall c :: c in group.clients ==> Subscription(c, group.scope) !in done
    requires DeliversExactly(sent, done, connections, before, event, payload)
    ensures DeliversExactly(out, done + Subscribers(group), connections, before, event, payload)
  {
    hide DeliversExactly;
    out := sent;
    ghost var all := Subscribers(group);
    assert done + all[..0] == done;
    for k := 0 to |group.clients|
      invariant DeliversExactly(out, done + all[..k], connections, before, event, payload)
    {
      var client := group.clients[k];
      assert done + all[..k + 1] == done + all[..k] + [Subscription(client, group.scope)];
      DeliverOne(out, done + all[..k], Subscription(client, group.scope), connections, before, event, payload);
      if client in connections {
        out := out + [EventDelivery(client, connections[client], Event(group.scope, link.0, link.1, event, payload))];
      }
    }
    assert all[..|all|] == all;
  }

  /** Advances every grouped scope once and sends the linked events. */
  method Emit(groups: seq<Group>, connections: map<ClientId, ConnectionId>, cursors: Cursors,
              event: EventScope, payload: Payload, ghost matching: seq<Subscription>)
    returns (out: seq<EventDelivery>, next: Cursors)
    requires WellGrouped(groups)
    requires forall scope, c :: Grouped(groups, scope, c) <==> Subscription(c, scope) in matching
    ensures CursorsAdvance(cursors, next, matching)
    ensures DeliversExactly(out, matching, connections, cursors, event, payload)
  {
    out, next := [], cursors;
    ghost var done: seq<Subscription> := [];
    for g := 0 to |groups|
      invariant forall scope :: CursorOf(next, scope) ==
                                CursorOf(cursors, scope) + if InGroups(groups[..g], scope) then 1 else 0
      invariant DeliversExactly(out, done, connections, cursors, event, payload)
      invariant forall s :: s in done <==> Grouped(groups[..g], s.scope, s.client)
    {
      hide DeliversExactly;
      GroupsGrow(groups, g);
      var scope := groups[g].scope;
      var previous := CursorOf(next, scope);
      next := next[scope := previous + 1];
      out := EmitGroup(groups[g], connections, (previous, previous + 1), event, payload, cursors, out, done);
      done := done + Subscribers(groups[g]);
    }
    assert groups[..|groups|] == groups;
    ExactlyByMembers(out, done, matching, connections, cursors, event, payload);
    ScopesTouched(groups, matching);
  }

  predicate InGroups(groups: seq<Group>, scope: Scope) {
    exists g :: 0 <= g < |groups| && groups[g].scope == scope
  }

  lemma GroupsGrow(groups: seq<Group>, g: nat)
    requires WellGrouped(groups) && g < |groups|
    ensures !InGroups(groups[..g], groups[g].scope)
    ensures forall scope :: InGroups(groups[..g + 1], scope) <==> InGroups(groups[..g], scope) || scope == groups[g].scope
    ensures forall scope, c :: Grouped(groups[..g + 1], scope, c)
                               <==> Grouped(groups[..g], scope, c) || (scope == groups[g].scope && c in groups[g].clients)
  {
    var grown := groups[..g + 1];
    assert grown[g] == groups[g];
    forall scope, c
      ensures Grouped(grown, scope, c) <==> Grouped(groups[..g], scope, c) || (scope == groups[g].scope && c in groups[g].clients)
    {
      if Grouped(groups[..g], scope, c) {
        var h :| 0 <= h < g && groups[..g][h].scope == scope && c in groups[..g][h].clients;
        assert grown[h].scope == scope && c in grown[h].clients;
      }
    }
    forall scope
      ensures InGroups(grown, scope) <==> InGroups(groups[..g], scope) || scope == groups[g].scope
    {
      if InGroups(groups[..g], scope) {
        var h :| 0 <= h < g && groups[..g][h].scope == scope;
        assert grown[h].scope == scope;
      }
    }
  }

  lemma ScopesTouched(groups: seq<Group>, matching: seq<Subscription>)
    requires WellGrouped(groups)
    requires forall scope, c :: Grouped(groups, scope, c) <==> Subscription(c, scope) in matching
    ensures forall scope :: InGroups(groups, scope) <==> Touches(matching, scope)
  {
    forall scope
      ensures InGroups(groups, scope) <==> Touches(matching, scope)
    {
      if InGroups(groups, scope) {
        var g :| 0 <= g < |groups| && groups[g].scope == scope;
        var c := groups[g].clients[0];
        assert Grouped(groups, scope, c);
        assert Subscription(c, scope) in matching;
      }
      if Touches(matching, scope) {
        var s :| s in matching && s.scope == scope;
        assert Grouped(groups, scope, s.client);
      }
    }
  }

  lemma ExactlyByMembers(out: seq<EventDelivery>, done: seq<Subscription>, matching: seq<Subscription>,
                         connections: map<ClientId, ConnectionId>, before: Cursors, event: EventScope, payload: Payload)
    requires DeliversExactly(out, done, connections, before, event, payload)
    requires forall s :: s in done <==> s in matching
    ensures DeliversExactly(out, matching, connections, before, event, payload)
  {
  }

  // ---------------------------------------------------------------- subscribe replies

  datatype Fetched<+T> = Ok(value: T) | Err(error: string)

  datatype Snapshot =
    | TaskBaseline(view: TaskView)
    | TaskResume(resume: Resume)
    | OtherBaseline(content: string)

  /** The Task's committed revision and the state that changes without one. */
  datatype Basis = Basis(revision: nat, current: Transients)

  datatype Subscribed = Subscribed(cursor: nat, scope: Scope, snapshot: Snapshot)

  /** The changes a copy at `known` lacks, when the log still holds every one of them. */
  function Missed(log: Tasks, task: TaskId, known: nat, current: nat): Option<seq<RevisionChanges>> {
    if known > current then None
    else if known == current then Some([])
    else
      var since := Since(log, task, known);
      if since.Changes? then Some(since.changes) else None
  }

  /** A resume when the client's revision can be brought current from retained changes, and a
      baseline otherwise. */
  function TaskSnapshot(log: Tasks, task: TaskId, known: Option<nat>,
                        basis: Fetched<Option<Basis>>, baseline: Fetched<Snapshot>): Fetched<Snapshot>
  {
    if known.None? then baseline
    else if basis.Err? then Err(basis.error)
    else if basis.value.None? then baseline
    else
      var missed := Missed(log, task, known.value, basis.value.value.revision);
      if missed.None? then baseline
      else Ok(TaskResume(Resume(task, known.value, missed.value, basis.value.value.current)))
  }

  function SnapshotFor(log: Tasks, scope: Scope, known: Option<nat>,
                       basis: Fetched<Option<Basis>>, baseline: Fetched<Snapshot>): Fetched<Snapshot>
  {
    if scope.Task? then TaskSnapshot(log, scope.task, known, basis, baseline) else baseline
  }

  /** Gaining a scope: the list grows at its end, once. */
  function Upserted(subscriptions: seq<Subscription>, s: Subscription): seq<Subscription> {
    if s in subscriptions then subscriptions else subscriptions + [s]
  }

  // ---------------------------------------------------------------- the presence index

  function Joined(presence: Presence, client: ClientId, task: TaskId): Presence {
    presence[task := (if task in presence then presence[task] else {}) + {client}]
  }

  function Left(presence: Presence, client: ClientId, task: TaskId): Presence {
    if task !in presence then presence
    else if presence[task] - {client} == {} then presence - {task}
    else presence[task := presence[task] - {client}]
  }

  function Expired(presence: Presence, client: ClientId): Presence {
    map t | t in presence && presence[t] - {client} != {} :: presence[t] - {client}
  }

  lemma JoinMirrors(presence: Presence, subscriptions: seq<Subscription>, client: ClientId, task: TaskId)
    requires Mirrors(presence, subscriptions)
    ensures Mirrors(Joined(presence, client, task), subscriptions + [Subscription(client, Task(task))])
  {
    assert client in Joined(presence, client, task)[task];
  }

  lemma LeaveMirrors(presence: Presence, subscriptions: seq<Subscription>, client: ClientId, task: TaskId)
    requires Mirrors(presence, subscriptions)
    ensures Mirrors(Left(presence, client, task), Without(subscriptions, client, Task(task)))
  {
    var next := Left(presence, client, task);
    var kept := Without(subscriptions, client, Task(task));
    forall t, c
      ensures (t in next && c in next[t]) <==> Subscription(c, Task(t)) in kept
    {
      assert t in presence && c in presence[t] && !(t == task && c == client) ==> c in presence[t] - {client} || t != task;
    }
  }

  lemma ExpireMirrors(presence: Presence, subscriptions: seq<Subscription>, client: ClientId)
    requires Mirrors(presence, subscriptions)
    ensures Mirrors(Expired(presence, client), WithoutClient(subscriptions, client))
  {
    var next := Expired(presence, client);
    var kept := WithoutClient(subscriptions, client);
    forall t, c
      ensures (t in next && c in next[t]) <==> Subscription(c, Task(t)) in kept
    {
      assert t in presence && c in presence[t] && c != client ==> c in presence[t] - {client};
    }
  }

  lemma OtherScopesMirror(presence: Presence, subscriptions: seq<Subscription>, client: ClientId, scope: Scope)
    requires Mirrors(presence, subscriptions) && !scope.Task?
    ensures Mirrors(presence, subscriptions + [Subscription(client, scope)])
    ensures Mirrors(presence, Without(subscriptions, client, scope))
  {
  }

  /** Task-view presence, shared with workflows that must not see subscriptions. */
  class TaskSubscriptionPresence {
    var subscribers: Presence

    constructor ()
      ensures subscribers == map[]
    {
      subscribers := map[];
    }

    method ObserveSubscribed(client: ClientId, task: TaskId)
      modifies this
      ensures subscribers == Joined(old(subscribers), client, task)
    {
      var followers := if task in subscribers then subscribers[task] else {};
      subscribers := subscribers[task := followers + {client}];
    }

    method ObserveUnsubscribed(client: ClientId, task: TaskId)
      modifies this
      ensures subscribers == Left(old(subscribers), client, task)
    {
      if task in subscribers {
        subscribers := subscribers[task := subscribers[task] - {client}];
        if subscribers[task] == {} {
          subscribers := subscribers - {task};
        }
        assert subscribers == Left(old(subscribers), client, task);
      }
    }

    method ObserveClientExpired(client: ClientId)
      modifies this
      ensures subscribers == Expired(old(subscribers), client)
    {
      subscribers := map t | t in subscribers && subscribers[t] - {client} != {} :: subscribers[t] - {client};
    }
  }

  // ---------------------------------------------------------------- the stream

  class StateStream {
    const root: string
    /** A coarse process cursor; live subscriptions use their scope's own. */
    var cursor: nat
    var scopeCursors: Cursors
    var subscriptions: seq<Subscription>
    const presence: TaskSubscriptionPresence
    const taskChanges: TaskChangeLog

    ghost predicate Valid()
      reads this, presence, taskChanges
    {
      && Distinct(subscriptions)
      && Mirrors(presence.subscribers, subscriptions)
      && taskChanges.Valid()
    }

    constructor (root: string, taskBound: nat, totalBound: nat)
      ensures Valid() && fresh(presence) && fresh(taskChanges)
      ensures this.root == root && cursor == 0 && subscriptions == [] && taskChanges.tasks == map[]
      ensures forall s :: CursorOf(scopeCursors, s) == 0
    {
      this.root, cursor, scopeCursors, subscriptions := root, 0, map[], [];
      presence := new TaskSubscriptionPresence();
      taskChanges := new TaskChangeLog(taskBound, totalBound);
    }

    /** The reply is taken at the scope's cursor, and the subscription starts there.  A failed
        read changes nothing but the scope's first use. */
    method Subscribe(client: ClientId, scope: Scope, known: Option<nat>,
                     basis: Fetched<Option<Basis>>, baseline: Fetched<Snapshot>)
      returns (reply: Fetched<Subscribed>, added: bool)
      requires Valid()
      modifies this, presence
      ensures Valid() && cursor == old(cursor)
      ensures forall s :: CursorOf(scopeCursors, s) == CursorOf(old(scopeCursors), s)
      ensures var snapshot := SnapshotFor(taskChanges.tasks, scope, known, basis, baseline);
              if snapshot.Ok? then
                && reply == Ok(Subscribed(CursorOf(old(scopeCursors), scope), scope, snapshot.value))
                && subscriptions == Upserted(old(subscriptions), Subscription(client, scope))
                && added == (Subscription(client, scope) !in old(subscriptions))
              else
                reply == Err(snapshot.error) && !added && subscriptions == old(subscriptions)
                && presence.subscribers == old(presence.subscribers)
    {
      if scope !in scopeCursors {
        scopeCursors := scopeCursors[scope := 0];
      }
      var token := scopeCursors[scope];
      var snapshot := SnapshotFor(taskChanges.tasks, scope, known, basis, baseline);
      if snapshot.Err? {
        return Err(snapshot.error), false;
      }
      added := Subscription(client, scope) !in subscriptions;
      if added {
        if scope.Task? {
          JoinMirrors(presence.subscribers, subscriptions, client, scope.task);
          presence.ObserveSubscribed(client, scope.task);
        } else {
          OtherScopesMirror(presence.subscribers, subscriptions, client, scope);
        }
        subscriptions := subscriptions + [Subscription(client, scope)];
      }
      reply := Ok(Subscribed(token, scope, snapshot.value));
    }

    method Unsubscribe(client: ClientId, scope: Scope)
      requires Valid()
      modifies this, presence
      ensures Valid() && cursor == old(cursor) && scopeCursors == old(scopeCursors)
      ensures subscriptions == Without(old(subscriptions), client, scope)
    {
      var before := |subscriptions|;
      FilterKeepsDistinct(subscriptions, (s: Subscription) => s != Subscription(client, scope));
      ghost var was := subscriptions;
      subscriptions := Filter(subscriptions, (s: Subscription) => s != Subscription(client, scope));
      if |subscriptions| != before {
        if scope.Task? {
          LeaveMirrors(presence.subscribers, was, client, scope.task);
          presence.ObserveUnsubscribed(client, scope.task);
        } else {
          OtherScopesMirror(presence.subscribers, was, client, scope);
        }
      } else {
        FilterAll(was, (s: Subscription) => s != Subscription(client, scope));
      }
    }

    method DropClientSubscriptions(client: ClientId)
      requires Valid()
      modifies this, presence
      ensures Valid() && cursor == old(cursor) && scopeCursors == old(scopeCursors)
      ensures subscriptions == WithoutClient(old(subscriptions), client)
    {
      FilterKeepsDistinct(subscriptions, OtherThan(client));
      ExpireMirrors(presence.subscribers, subscriptions, client);
      subscriptions := Filter(subscriptions, OtherThan(client));
      presence.ObserveClientExpired(client);
    }

    /** Publishes one committed event.  `bytes` is the encoded size of a Task change. */
    method PublishCommitted(event: EventScope, payload: Payload, bytes: nat, connections: map<ClientId, ConnectionId>)
      returns (out: seq<EventDelivery>)
      requires Valid()
      modifies this, taskChanges
      ensures Valid() && cursor == old(cursor) + 1
      ensures subscriptions == old(subscriptions) && presence.subscribers == old(presence.subscribers)
      ensures var matching := Matching(old(subscriptions), event, payload, root);
              && CursorsAdvance(old(scopeCursors), scopeCursors, matching)
              && DeliversExactly(out, matching, connections, old(scopeCursors), event, payload)
      ensures if event.TaskScope? && payload.TaskChanged? then
                Recorded(old(taskChanges.tasks), taskChanges.tasks, event.task,
                         Entry(payload.revision, payload.changes, bytes),
                         old(taskChanges.sequence) + 1, taskChanges.taskBound, taskChanges.totalBound)
              else taskChanges.tasks == old(taskChanges.tasks)
    {
      hide DeliversExactly, CursorsAdvance, Recorded, Mirrors, Matching, WellGrouped;
      cursor := cursor + 1;
      if event.TaskScope? && payload.TaskChanged? {
        taskChanges.Record(event.task, payload.revision, payload.changes, bytes);
      }
      var matching := Matching(subscriptions, event, payload, root);
      var groups := GroupByScope(matching);
      out, scopeCursors := Emit(groups, connections, scopeCursors, event, payload, matching);
    }
  }
}
