/**
 What the protocol promises a client that stays subscribed: an unbroken chain of events, a copy
 that reaches the committed Task, and a resume that ends where a baseline would.
 */
module SyncTheorems {
  import opened Prelude
  import opened TaskCopies
  import opened ChangeLogs
  import opened Routing
  import opened StateStreams
  import opened Replicas
  import opened StateSync
  import opened SyncRuns

  predicate Publishes(step: Step) {
    step.PublishChange? || step.PublishOther?
  }

  /** The event scope and payload a publishing step sends. */
  function Sends(w: World, step: Step): (EventScope, Payload)
    requires Publishes(step)
    requires step.PublishChange? ==> step.task in w.tasks && w.tasks[step.task].published < |w.tasks[step.task].changes|
  {
    match step
    case PublishChange(task, _, _, _) => (TaskScope(w.root, task), NextChange(task, w.tasks[task]))
    case PublishOther(event, payload, _, _) => (event, payload)
  }

  function MatchingAt(w: World, step: Step): seq<Subscription>
    requires Publishes(step)
    requires step.PublishChange? ==> step.task in w.tasks && w.tasks[step.task].published < |w.tasks[step.task].changes|
  {
    Matching(w.subscriptions, Sends(w, step).0, Sends(w, step).1, w.root)
  }

  lemma PublishingBroadcasts(w: World, w': World, step: Step)
    requires Takes(w, w', step) && Publishes(step)
    ensures step.PublishChange? ==> step.task in w.tasks && w.tasks[step.task].published < |w.tasks[step.task].changes|
    ensures Broadcast(w, w', Sends(w, step).0, Sends(w, step).1, step.connections, step.out)
    ensures w'.subscriptions == w.subscriptions && w'.root == w.root
  {
  }

  lemma OthersKeepStreams(w: World, w': World, step: Step)
    requires Takes(w, w', step) && !Publishes(step)
    ensures w'.streams == w.streams && w'.cursors == w.cursors && w.sent <= w'.sent && w'.root == w.root
  {
  }

  // ---------------------------------------------------------------- who is skipped

  /** The scope's stream moves on although this subscriber is not offered the event. */
  ghost predicate Skips(subscriptions: seq<Subscription>, event: EventScope, payload: Payload, root: string, s: Subscription) {
    var matching := Matching(subscriptions, event, payload, root);
    s in subscriptions && Touches(matching, s.scope) && s !in matching
  }

  /** A subscriber is skipped exactly when the event is addressed to another client that follows
      the same scope with it. */
  lemma SkippedExactlyWhenAddressedElsewhere(subscriptions: seq<Subscription>, event: EventScope, payload: Payload,
                                             root: string, s: Subscription)
    requires s in subscriptions
    ensures Skips(subscriptions, event, payload, root, s)
            <==> && Addressed(event, payload) && event.client != s.client
                 && Subscription(event.client, s.scope) in subscriptions
                 && event.root == root && !TaskOwned(s.scope) && PayloadMatches(payload, s.scope)
    ensures s.scope.Task? ==> !Skips(subscriptions, event, payload, root, s)
  {
    var matching := Matching(subscriptions, event, payload, root);
    if Touches(matching, s.scope) {
      var other :| other in matching && other.scope == s.scope;
      RoutingIsPerScope(event, payload, s.scope, other.client, s.client, root);
    }
    if Addressed(event, payload) && Subscription(event.client, s.scope) in subscriptions
       && event.root == root && !TaskOwned(s.scope) && PayloadMatches(payload, s.scope) {
      assert Subscription(event.client, s.scope) in matching;
    }
  }

  /** A concrete skip: two clients follow the Projects, one is sent its own snapshot. */
  lemma SkipHappens(a: ClientId, b: ClientId, root: string)
    requires a != b
    ensures Skips([Subscription(a, Projects), Subscription(b, Projects)],
                  ClientScope(root, a), SnapshotReplaced(None, ""), root, Subscription(b, Projects))
  {
    var subscriptions := [Subscription(a, Projects), Subscription(b, Projects)];
    assert subscriptions[0] in subscriptions && subscriptions[1] in subscriptions;
    SkippedExactlyWhenAddressedElsewhere(subscriptions, ClientScope(root, a), SnapshotReplaced(None, ""), root,
                                         Subscription(b, Projects));
  }

  // ---------------------------------------------------------------- the chain

  /** From world `i` to world `j` the client keeps the subscription. */
  ghost predicate Follows(run: seq<World>, steps: seq<Step>, i: nat, j: nat, s: Subscription) {
    && IsRunOf(run, steps) && i <= j < |run|
    && forall k :: i <= k <= j ==> s in run[k].subscriptions
  }

  /** No publication of the stretch skips the subscriber. */
  ghost predicate NeverSkipped(run: seq<World>, steps: seq<Step>, i: nat, j: nat, s: Subscription)
    requires Follows(run, steps, i, j, s)
  {
    forall k :: i <= k < j && steps[k].PublishOther? ==>
                  !Skips(run[k].subscriptions, steps[k].event, steps[k].payload, run[k].root, s)
  }

  /** Every publication of the stretch found the client reachable. */
  ghost predicate AlwaysReached(steps: seq<Step>, i: nat, j: nat, client: ClientId)
    requires j <= |steps|
  {
    forall k :: i <= k < j && Publishes(steps[k]) ==> client in steps[k].connections
  }

  /** The event from cursor `n` to `n + 1` was sent to the subscriber, routed to it. */
  ghost predicate Offered(w: World, s: Subscription, n: nat)
    requires n < |StreamOf(w.streams, s.scope)|
  {
    exists event :: OfferedAs(w, s, n, event)
  }

  predicate OfferedAs(w: World, s: Subscription, n: nat, event: EventScope)
    requires n < |StreamOf(w.streams, s.scope)|
  {
    var payload := StreamOf(w.streams, s.scope)[n];
    (s.client, Live(Event(s.scope, n, n + 1, event, payload))) in w.sent && EventMatches(event, payload, s, w.root)
  }

  lemma StreamsOnlyGrow(w: World, w': World, step: Step, s: Subscription)
    requires Takes(w, w', step)
    ensures StreamOf(w.streams, s.scope) <= StreamOf(w'.streams, s.scope) && w.sent <= w'.sent && w'.root == w.root
  {
    hide Recorded, DeliversExactly, CursorsAdvance, SnapshotFor, Receive, Leave, Matching;
  }

  lemma OffersLast(w: World, w': World, event: EventScope, payload: Payload, connections: map<ClientId, ConnectionId>,
                   out: seq<EventDelivery>, s: Subscription, n: nat)
    requires TrueStreams(w.tasks, w.streams, w.cursors) && Broadcast(w, w', event, payload, connections, out)
    requires s in w.subscriptions && s.client in connections && w'.root == w.root
    requires !Skips(w.subscriptions, event, payload, w.root, s)
    requires |StreamOf(w.streams, s.scope)| <= n < |StreamOf(w'.streams, s.scope)|
    ensures Offered(w', s, n)
  {
    hide EventMatches, TruePayload;
    StreamMovesOnce(w, w', event, payload, connections, out, s.scope);
    assert s in Matching(w.subscriptions, event, payload, w.root);
    SendsToMatch(w, w', event, payload, connections, out, s);
    hide Broadcast, TrueStreams, Matching, Skips, Touches;
    assert OfferedAs(w', s, n, event);
  }

  lemma StreamMovesOnce(w: World, w': World, event: EventScope, payload: Payload, connections: map<ClientId, ConnectionId>,
                        out: seq<EventDelivery>, scope: Scope)
    requires TrueStreams(w.tasks, w.streams, w.cursors) && Broadcast(w, w', event, payload, connections, out)
    ensures |StreamOf(w.streams, scope)| == CursorOf(w.cursors, scope)
    ensures |StreamOf(w.streams, scope)| < |StreamOf(w'.streams, scope)| ==>
              && StreamOf(w'.streams, scope) == StreamOf(w.streams, scope) + [payload]
              && Touches(Matching(w.subscriptions, event, payload, w.root), scope)
  {
    hide TruePayload, Matching, DeliversExactly, CursorsAdvance, Touches;
  }

  lemma SendsToMatch(w: World, w': World, event: EventScope, payload: Payload, connections: map<ClientId, ConnectionId>,
                     out: seq<EventDelivery>, s: Subscription)
    requires Broadcast(w, w', event, payload, connections, out) && s.client in connections
    requires s in Matching(w.subscriptions, event, payload, w.root)
    ensures (s.client, Live(Linked(w.cursors, s.scope, event, payload))) in w'.sent
    ensures EventMatches(event, payload, s, w.root)
  {
    hide CursorsAdvance, EventMatches, Touches, StreamOf;
    var d := EventDelivery(s.client, connections[s.client], Linked(w.cursors, s.scope, event, payload));
    assert d in out;
  }

  lemma OfferGrows(w: World, w': World, s: Subscription, n: nat)
    requires n < |StreamOf(w.streams, s.scope)| && Offered(w, s, n)
    requires StreamOf(w.streams, s.scope) <= StreamOf(w'.streams, s.scope) && w.sent <= w'.sent && w'.root == w.root
    ensures Offered(w', s, n)
  {
    var event :| OfferedAs(w, s, n, event);
    assert OfferedAs(w', s, n, event);
  }

  lemma TaskChangesSkipNobody(w: World, step: Step, s: Subscription)
    requires step.PublishChange? && step.task in w.tasks && w.tasks[step.task].published < |w.tasks[step.task].changes|
    requires s in w.subscriptions
    ensures !Skips(w.subscriptions, Sends(w, step).0, Sends(w, step).1, w.root, s)
  {
    SkippedExactlyWhenAddressedElsewhere(w.subscriptions, Sends(w, step).0, Sends(w, step).1, w.root, s);
  }

  /** One step sends what it adds to the stream. */
  lemma StepOffers(w: World, w': World, step: Step, s: Subscription, n: nat)
    requires Takes(w, w', step) && TrueStreams(w.tasks, w.streams, w.cursors) && s in w.subscriptions
    requires Publishes(step) ==> s.client in step.connections
    requires step.PublishOther? ==> !Skips(w.subscriptions, step.event, step.payload, w.root, s)
    requires |StreamOf(w.streams, s.scope)| <= n < |StreamOf(w'.streams, s.scope)|
    ensures Offered(w', s, n)
  {
    hide Takes, Skips, Broadcast, Offered, TrueStreams, Sends;
    StreamsOnlyGrow(w, w', step, s);
    if Publishes(step) {
      PublishingBroadcasts(w, w', step);
      if step.PublishChange? {
        TaskChangesSkipNobody(w, step, s);
      } else {
        SendsOther(w, step);
      }
      OffersLast(w, w', Sends(w, step).0, Sends(w, step).1, step.connections, step.out, s, n);
    } else {
      OthersKeepStreams(w, w', step);
    }
  }

  lemma StreamsAreTrue(run: seq<World>, steps: seq<Step>, k: nat)
    requires IsRunOf(run, steps) && k < |run|
    ensures TrueStreams(run[k].tasks, run[k].streams, run[k].cursors)
  {
    hide IsRunOf, TrueStreams;
    EveryWorldIsTrue(run, steps, k);
  }

  /** While a client stays subscribed, reachable and not skipped, the events it is sent link every
      cursor from where it subscribed to where the stream is now, without a gap. */
  lemma {:induction false} ChainIsUnbroken(run: seq<World>, steps: seq<Step>, i: nat, j: nat, s: Subscription, n: nat)
    requires Follows(run, steps, i, j, s) && NeverSkipped(run, steps, i, j, s)
    requires AlwaysReached(steps, i, j, s.client)
    requires |StreamOf(run[i].streams, s.scope)| <= n < |StreamOf(run[j].streams, s.scope)|
    ensures Offered(run[j], s, n)
    decreases j - i
  {
    hide IsRunOf, Takes, Skips, Offered, TrueStreams, StreamOf;
    if j > i {
      var k := j - 1;
      RunStep(run, steps, k);
      StreamsAreTrue(run, steps, k);
      if n < |StreamOf(run[k].streams, s.scope)| {
        ChainIsUnbroken(run, steps, i, k, s, n);
        StreamsOnlyGrow(run[k], run[j], steps[k], s);
        OfferGrows(run[k], run[j], s, n);
      } else {
        StepOffers(run[k], run[j], steps[k], s, n);
      }
    }
  }

  lemma SendsOther(w: World, step: Step)
    requires step.PublishOther?
    ensures Sends(w, step) == (step.event, step.payload)
  {
  }

  lemma TaskStreamsSkipNobody(run: seq<World>, steps: seq<Step>, i: nat, j: nat, s: Subscription)
    requires Follows(run, steps, i, j, s) && s.scope.Task?
    ensures NeverSkipped(run, steps, i, j, s)
  {
    forall k | i <= k < j && steps[k].PublishOther?
      ensures !Skips(run[k].subscriptions, steps[k].event, steps[k].payload, run[k].root, s)
    {
      SkippedExactlyWhenAddressedElsewhere(run[k].subscriptions, steps[k].event, steps[k].payload, run[k].root, s);
    }
  }

  // ---------------------------------------------------------------- the copy reaches the Task

  /** The copy is the committed Task at a revision that covers everything published. */
  ghost predicate Current(tasks: map<TaskId, Truth>, task: TaskId, view: TaskView) {
    TrueView(tasks, task, view) && view.revision >= PublishedRevision(tasks[task])
  }

  /** The part of a step the contents of one Task stream can see. */
  datatype StreamStep = Quiet | Carries(payload: Payload)

  function StreamStepOf(w: World, step: Step, task: TaskId): StreamStep
    requires Publishes(step) && step.PublishChange? ==>
               step.task in w.tasks && w.tasks[step.task].published < |w.tasks[step.task].changes|
  {
    if Publishes(step) && Touches(MatchingAt(w, step), Task(task)) then Carries(Sends(w, step).1) else Quiet
  }

  /** The Tasks a step leaves. */
  function TasksBy(tasks: map<TaskId, Truth>, step: Step): map<TaskId, Truth> {
    match step
    case Create(task, view) => tasks[task := Truth(view, [], 0)]
    case Commit(task, changes) =>
      if task in tasks then tasks[task := tasks[task].(changes := tasks[task].changes + [changes])] else tasks
    case PublishChange(task, _, _, _) =>
      if task in tasks then tasks[task := tasks[task].(published := tasks[task].published + 1)] else tasks
    case _ => tasks
  }

  lemma StepSetsTasks(w: World, w': World, step: Step)
    requires Takes(w, w', step)
    ensures w'.tasks == TasksBy(w.tasks, step) && (step.Create? ==> step.task !in w.tasks)
  {
    hide Recorded, Broadcast, SnapshotFor, Receive, Leave, Replay, Provided, TruePublication, Upserted, Without, WithoutClient;
  }

  lemma TasksOnlyGrow(w: World, w': World, step: Step, task: TaskId)
    requires Inv(w) && Inv(w') && Takes(w, w', step) && task in w.tasks
    ensures TasksGrew(w.tasks, w'.tasks)
    ensures !step.PublishChange? || step.task != task ==> w'.tasks[task].published == w.tasks[task].published
    ensures step.PublishChange? && step.task == task ==> w'.tasks[task].published == w.tasks[task].published + 1
  {
    hide Inv, Takes;
    StepSetsTasks(w, w', step);
  }

  lemma StreamGrowsByStep(w: World, w': World, step: Step, task: TaskId)
    requires Takes(w, w', step)
    ensures step.PublishChange? ==> step.task in w.tasks && w.tasks[step.task].published < |w.tasks[step.task].changes|
    ensures var seen := StreamStepOf(w, step, task);
            StreamOf(w'.streams, Task(task)) == StreamOf(w.streams, Task(task)) + if seen.Carries? then [seen.payload] else []
  {
    hide Recorded, DeliversExactly, CursorsAdvance, SnapshotFor, Receive, Leave, Matching;
  }

  /** A subscribed Task's own change always enters its stream. */
  lemma OwnChangeIsCarried(w: World, step: Step, s: Subscription)
    requires step.PublishChange? && step.task in w.tasks && w.tasks[step.task].published < |w.tasks[step.task].changes|
    requires s in w.subscriptions && s.scope == Task(step.task)
    ensures StreamStepOf(w, step, step.task) == Carries(NextChange(step.task, w.tasks[step.task]))
  {
    var event, payload := TaskScope(w.root, step.task), NextChange(step.task, w.tasks[step.task]);
    assert EventMatches(event, payload, s, w.root);
    assert s in MatchingAt(w, step);
  }

  /** Ingesting a true payload leaves the copy current, given that the publisher moved at most
      one revision and sent it here. */
  lemma UpdateStaysCurrent(before: map<TaskId, Truth>, after: map<TaskId, Truth>, task: TaskId, view: TaskView, payload: Payload)
    requires TasksGrew(before, after) && Truths(after)
    requires Current(before, task, view) && TruePayload(after, payload)
    requires after[task].published <= before[task].published + 1
    requires after[task].published == before[task].published + 1 ==>
               payload.TaskChanged? && payload.changedTask == task && payload.revision == PublishedRevision(after[task])
    requires payload.SnapshotReplaced? && payload.activeTask.Some? && payload.activeTask.value.summary.taskId == task ==>
               payload.activeTask.value.revision >= PublishedRevision(after[task])
    ensures var r := UpdateView(view, payload);
            && !r.ResyncRequired?
            && (r.Unchanged? ==> Current(after, task, view))
            && (r.Changed? ==> Current(after, task, r.view))
  {
    hide Faithful, At, ApplyChanges, UpsertRequest;
    ViewGrows(before, after, task, view);
    UpdateStaysTrue(after, task, view, payload);
    if payload.TaskChanged? && payload.changedTask == task {
      IngestStaysFaithful(task, after[task], view, payload.revision);
    }
    IdentityIsKept(after, task, view);
    if payload.SnapshotReplaced? && payload.activeTask.Some? && payload.activeTask.value.summary.taskId == task {
      assert UpdateView(view, payload) == Changed(payload.activeTask.value);
    } else if !payload.TaskChanged? {
      assert UpdateView(view, payload).Changed? ==> UpdateView(view, payload).view.revision == view.revision;
    }
  }

  lemma QuietStaysCurrent(before: map<TaskId, Truth>, after: map<TaskId, Truth>, task: TaskId, view: TaskView)
    requires TasksGrew(before, after) && Truths(after)
    requires Current(before, task, view) && after[task].published == before[task].published
    ensures Current(after, task, view)
  {
    hide Faithful, At;
    ViewGrows(before, after, task, view);
  }

  /** A snapshot replacement is published at the committed revision. */
  lemma PublishedSnapshotsAreLatest(w: World, w': World, step: Step, task: TaskId)
    requires Inv(w) && Takes(w, w', step) && step.PublishOther?
    requires step.payload.SnapshotReplaced? && step.payload.activeTask.Some?
             && step.payload.activeTask.value.summary.taskId == task
    ensures task in w.tasks && w'.tasks == w.tasks
    ensures step.payload.activeTask.value.revision >= PublishedRevision(w'.tasks[task])
  {
    hide Broadcast, At, Faithful, TrueLog, TrueStreams, TrueSent, TrueClients;
  }

  /** What a copy installed in world `i` holds after the stream of world `j`. */
  function FollowTo(run: seq<World>, i: nat, j: nat, task: TaskId, view: TaskView): Option<TaskView>
    requires i < |run| && j < |run|
    requires |StreamOf(run[i].streams, Task(task))| <= |StreamOf(run[j].streams, Task(task))|
  {
    Follow(view, StreamOf(run[j].streams, Task(task))[|StreamOf(run[i].streams, Task(task))|..])
  }

  lemma {:induction false} StreamLengthsGrow(run: seq<World>, steps: seq<Step>, i: nat, j: nat, task: TaskId)
    requires IsRunOf(run, steps) && i <= j < |run|
    ensures StreamOf(run[i].streams, Task(task)) <= StreamOf(run[j].streams, Task(task))
    decreases j - i
  {
    hide Takes, IsRunOf, StreamOf;
    if j > i {
      StreamLengthsGrow(run, steps, i, j - 1, task);
      RunStep(run, steps, j - 1);
      StreamsOnlyGrow(run[j - 1], run[j], steps[j - 1], Subscription(ClientId(""), Task(task)));
    }
  }

  /** A client that stays subscribed and ingests its chain in order is never told to resync, and its
      copy stays the committed Task at a revision that covers everything published so far. */
  lemma {:induction false} SubscribedCopyStaysCurrent(run: seq<World>, steps: seq<Step>, i: nat, j: nat, client: ClientId,
                                                      task: TaskId, view: TaskView)
    requires Follows(run, steps, i, j, Subscription(client, Task(task)))
    requires Current(run[i].tasks, task, view)
    ensures StreamOf(run[i].streams, Task(task)) <= StreamOf(run[j].streams, Task(task))
    ensures var r := FollowTo(run, i, j, task, view); r.Some? && Current(run[j].tasks, task, r.value)
    decreases j - i
  {
    hide Inv, Takes, IsRunOf, Current, FollowTo;
    StreamLengthsGrow(run, steps, i, j, task);
    if j == i {
      FollowNothing(run, i, task, view);
    } else {
      var k := j - 1;
      StreamLengthsGrow(run, steps, i, k, task);
      SubscribedCopyStaysCurrent(run, steps, i, k, client, task, view);
      RunStep(run, steps, k);
      EveryWorldIsTrue(run, steps, k);
      EveryWorldIsTrue(run, steps, j);
      CurrentStep(run[k], run[j], steps[k], client, task, FollowTo(run, i, k, task, view).value);
      FollowOneStep(run, i, k, steps[k], task, view);
    }
  }

  lemma FollowNothing(run: seq<World>, i: nat, task: TaskId, view: TaskView)
    requires i < |run|
    ensures FollowTo(run, i, i, task, view) == Some(view)
  {
    var stream := StreamOf(run[i].streams, Task(task));
    assert stream[|stream|..] == [];
  }

  /** One step, seen from a current copy. */
  lemma CurrentStep(w: World, w': World, step: Step, client: ClientId, task: TaskId, view: TaskView)
    requires Inv(w) && Inv(w') && Takes(w, w', step) && Current(w.tasks, task, view)
    requires Subscription(client, Task(task)) in w.subscriptions
    ensures step.PublishChange? ==> step.task in w.tasks && w.tasks[step.task].published < |w.tasks[step.task].changes|
    ensures var seen := StreamStepOf(w, step, task);
            if seen.Quiet? then Current(w'.tasks, task, view)
            else
              var r := UpdateView(view, seen.payload);
              && !r.ResyncRequired?
              && Current(w'.tasks, task, if r.Changed? then r.view else view)
  {
    hide Inv, Takes, TrueView, StreamStepOf, UpdateView, Truths, StreamOf;
    CurrentIsThere(w.tasks, task, view);
    TasksOnlyGrow(w, w', step, task);
    StreamGrowsByStep(w, w', step, task);
    TruthsHold(w');
    if step.PublishChange? && step.task == task {
      OwnChangeIsCarried(w, step, Subscription(client, Task(task)));
    }
    if StreamStepOf(w, step, task).Quiet? {
      hide Current;
      QuietStaysCurrent(w.tasks, w'.tasks, task, view);
    } else {
      hide Current;
      CarriedStaysCurrent(w, w', step, task, view);
    }
  }

  lemma CurrentIsThere(tasks: map<TaskId, Truth>, task: TaskId, view: TaskView)
    requires Current(tasks, task, view)
    ensures task in tasks
  {
  }

  /** The step put a payload on the Task's stream. */
  lemma CarriedStaysCurrent(w: World, w': World, step: Step, task: TaskId, view: TaskView)
    requires Inv(w) && Inv(w') && Takes(w, w', step) && Current(w.tasks, task, view)
    requires step.PublishChange? ==> step.task in w.tasks && w.tasks[step.task].published < |w.tasks[step.task].changes|
    requires StreamStepOf(w, step, task).Carries?
    ensures var r := UpdateView(view, StreamStepOf(w, step, task).payload);
            !r.ResyncRequired? && Current(w'.tasks, task, if r.Changed? then r.view else view)
  {
    hide Inv, Takes, TrueView, StreamStepOf, UpdateView, Truths, TruePayload, StreamOf, Current;
    var payload := StreamStepOf(w, step, task).payload;
    CurrentIsThere(w.tasks, task, view);
    TasksOnlyGrow(w, w', step, task);
    TruthsHold(w');
    LastPayloadIsTrue(w, w', step, task);
    CarriedPayload(w, step, task);
    if step.PublishOther? && payload.SnapshotReplaced? && payload.activeTask.Some?
       && payload.activeTask.value.summary.taskId == task {
      PublishedSnapshotsAreLatest(w, w', step, task);
    }
    UpdateStaysCurrent(w.tasks, w'.tasks, task, view, payload);
  }

  lemma LastPayloadIsTrue(w: World, w': World, step: Step, task: TaskId)
    requires Inv(w') && Takes(w, w', step)
    ensures step.PublishChange? ==> step.task in w.tasks && w.tasks[step.task].published < |w.tasks[step.task].changes|
    ensures StreamStepOf(w, step, task).Carries? ==> TruePayload(w'.tasks, StreamStepOf(w, step, task).payload)
  {
    hide Takes, StreamStepOf, TruePayload;
    StreamGrowsByStep(w, w', step, task);
    if StreamStepOf(w, step, task).Carries? {
      var stream := StreamOf(w'.streams, Task(task));
      assert stream[|stream| - 1] == StreamStepOf(w, step, task).payload;
    }
  }

  lemma CarriedPayload(w: World, step: Step, task: TaskId)
    requires step.PublishChange? ==> step.task in w.tasks && w.tasks[step.task].published < |w.tasks[step.task].changes|
    ensures StreamStepOf(w, step, task).Carries? ==>
              Publishes(step) && StreamStepOf(w, step, task).payload == Sends(w, step).1
  {
  }

  lemma FollowOneStep(run: seq<World>, i: nat, k: nat, step: Step, task: TaskId, view: TaskView)
    requires i <= k < |run| - 1 && Takes(run[k], run[k + 1], step)
    requires |StreamOf(run[i].streams, Task(task))| <= |StreamOf(run[k].streams, Task(task))|
    requires FollowTo(run, i, k, task, view).Some?
    ensures step.PublishChange? ==>
              step.task in run[k].tasks && run[k].tasks[step.task].published < |run[k].tasks[step.task].changes|
    ensures |StreamOf(run[i].streams, Task(task))| <= |StreamOf(run[k + 1].streams, Task(task))|
    ensures var seen := StreamStepOf(run[k], step, task);
            var held := FollowTo(run, i, k, task, view).value;
            if seen.Quiet? then FollowTo(run, i, k + 1, task, view) == Some(held)
            else
              var r := UpdateView(held, seen.payload);
              !r.ResyncRequired? ==> FollowTo(run, i, k + 1, task, view) == Some(if r.Changed? then r.view else held)
  {
    hide Takes, StreamStepOf, UpdateView;
    StreamGrowsByStep(run[k], run[k + 1], step, task);
    var seen := StreamStepOf(run[k], step, task);
    var base := |StreamOf(run[i].streams, Task(task))|;
    var a, b := StreamOf(run[k].streams, Task(task)), StreamOf(run[k + 1].streams, Task(task));
    if seen.Quiet? {
      assert a == b;
    } else {
      assert b[base..] == a[base..] + [seen.payload];
      if !UpdateView(Follow(view, a[base..]).value, seen.payload).ResyncRequired? {
        FollowStep(view, a[base..], seen.payload);
      }
    }
  }

  // ---------------------------------------------------------------- receiving in order

  /** Messages as they arrive, each with the verdict of the contents not modelled here. */
  function ReceiveAll(state: Client, messages: seq<(Message, bool)>, client: ClientId, root: string): Client
    decreases |messages|
  {
    if messages == [] then state
    else
      var last := messages[|messages| - 1];
      Receive(ReceiveAll(state, messages[..|messages| - 1], client, root), last.0, client, root, last.1)
  }

  /** The event that links to the cursor, routed to the subscriber. */
  predicate Extends(message: Message, s: Subscription, cursor: nat, root: string) {
    && message.Live? && message.event.subscription == s.scope
    && message.event.previousCursor == cursor && message.event.cursor == cursor + 1
    && EventMatches(message.event.scope, message.event.payload, s, root)
  }

  /** Traffic of another scope, or the event at the cursor once more. */
  predicate Passes(message: Message, s: Subscription, cursor: nat, root: string) {
    match message
    case Reply(reply) => reply.scope != s.scope
    case Live(event) =>
      event.subscription != s.scope || (event.cursor == cursor && EventMatches(event.scope, event.payload, s, root))
  }

  /** What the linking events among the messages carry. */
  function Carried(messages: seq<(Message, bool)>, s: Subscription, from: nat, root: string): seq<Payload>
    decreases |messages|
  {
    if messages == [] then []
    else
      var before := Carried(messages[..|messages| - 1], s, from, root);
      var last := messages[|messages| - 1].0;
      if Extends(last, s, from + |before|, root) then before + [last.event.payload] else before
  }

  /** Nothing of the scope is missing: every message links to the cursor reached so far or passes. */
  predicate InOrder(messages: seq<(Message, bool)>, s: Subscription, from: nat, root: string)
    decreases |messages|
  {
    messages == []
    || (var before := messages[..|messages| - 1];
        var last := messages[|messages| - 1].0;
        var cursor := from + |Carried(before, s, from, root)|;
        InOrder(before, s, from, root) && (Extends(last, s, cursor, root) || Passes(last, s, cursor, root)))
  }

  /** The copy once it has moved along the payloads. */
  function MovedAlong(held: Replica, payloads: seq<Payload>): Replica
    requires held.view.Some?
  {
    held.(cursor := held.cursor + |payloads|, applied := held.applied + payloads, view := Follow(held.view.value, payloads))
  }

  lemma PassingChangesNothing(state: Client, task: TaskId, message: Message, contentOk: bool, client: ClientId, root: string)
    requires Task(task) in state.replicas
    requires Passes(message, Subscription(client, Task(task)), state.replicas[Task(task)].cursor, root)
    ensures var next := Receive(state, message, client, root, contentOk);
            Task(task) in next.replicas && next.replicas[Task(task)] == state.replicas[Task(task)]
  {
    hide EventMatches, ClientMatch, UpdateView, Install;
    if message.Live? && message.event.subscription == Task(task) {
      ClientAcceptsRoutedEvents(message.event.scope, message.event.payload, Subscription(client, Task(task)), root);
    }
  }

  lemma LinkingEventMoves(state: Client, task: TaskId, message: Message, contentOk: bool, client: ClientId, root: string)
    requires Task(task) in state.replicas && state.replicas[Task(task)].view.Some?
    requires Extends(message, Subscription(client, Task(task)), state.replicas[Task(task)].cursor, root)
    requires !UpdateView(state.replicas[Task(task)].view.value, message.event.payload).ResyncRequired?
    ensures var held := state.replicas[Task(task)];
            var r := UpdateView(held.view.value, message.event.payload);
            var next := Receive(state, message, client, root, contentOk);
            && Task(task) in next.replicas
            && next.replicas[Task(task)] == Advanced(held, message.event, Some(if r.Changed? then r.view else held.view.value))
  {
    hide EventMatches, ClientMatch, UpdateView, Install;
    ClientAcceptsRoutedEvents(message.event.scope, message.event.payload, Subscription(client, Task(task)), root);
  }

  lemma FollowLast(view: TaskView, payloads: seq<Payload>, last: Payload)
    requires Follow(view, payloads + [last]).Some?
    ensures Follow(view, payloads).Some?
    ensures var r := UpdateView(Follow(view, payloads).value, last);
            !r.ResyncRequired? && Follow(view, payloads + [last]).value == if r.Changed? then r.view else Follow(view, payloads).value
  {
    hide UpdateView;
    assert (payloads + [last])[..|payloads|] == payloads;
  }

  lemma MovedOneMore(held: Replica, payloads: seq<Payload>, event: Event)
    requires held.view.Some? && event.cursor == held.cursor + |payloads| + 1
    requires Follow(held.view.value, payloads + [event.payload]).Some?
    ensures Follow(held.view.value, payloads).Some?
    ensures var moved := MovedAlong(held, payloads);
            var r := UpdateView(moved.view.value, event.payload);
            && !r.ResyncRequired?
            && MovedAlong(held, payloads + [event.payload])
               == Advanced(moved, event, Some(if r.Changed? then r.view else moved.view.value))
  {
    hide UpdateView, Follow;
    FollowLast(held.view.value, payloads, event.payload);
    assert held.applied + (payloads + [event.payload]) == held.applied + payloads + [event.payload];
  }

  lemma MovedNowhere(held: Replica)
    requires held.view.Some?
    ensures MovedAlong(held, []) == held
  {
    assert held.applied + [] == held.applied;
  }

  /** Whatever other traffic and repeats come in between, receiving its events in order moves the copy
      along exactly what they carry. */
  lemma {:induction false} InOrderReceiptFollows(state: Client, messages: seq<(Message, bool)>, client: ClientId, root: string,
                                                 task: TaskId)
    requires Task(task) in state.replicas && state.replicas[Task(task)].view.Some?
    requires InOrder(messages, Subscription(client, Task(task)), state.replicas[Task(task)].cursor, root)
    requires Follow(state.replicas[Task(task)].view.value,
                    Carried(messages, Subscription(client, Task(task)), state.replicas[Task(task)].cursor, root)).Some?
    ensures var held := state.replicas[Task(task)];
            var next := ReceiveAll(state, messages, client, root);
            && Task(task) in next.replicas
            && next.replicas[Task(task)]
               == MovedAlong(held, Carried(messages, Subscription(client, Task(task)), held.cursor, root))
    decreases |messages|, 0
  {
    hide UpdateView, Receive, MovedAlong, Extends, Passes, Follow;
    var s := Subscription(client, Task(task));
    var held := state.replicas[Task(task)];
    if messages == [] {
      MovedNowhere(held);
    } else {
      var before, last := messages[..|messages| - 1], messages[|messages| - 1];
      var payloads := Carried(before, s, held.cursor, root);
      if Extends(last.0, s, held.cursor + |payloads|, root) {
        ReceiptStep(state, before, last, payloads, client, root, task);
      } else {
        InOrderReceiptFollows(state, before, client, root, task);
        CursorOfMoved(held, payloads);
        PassingChangesNothing(ReceiveAll(state, before, client, root), task, last.0, last.1, client, root);
      }
    }
  }

  lemma CursorOfMoved(held: Replica, payloads: seq<Payload>)
    requires held.view.Some?
    ensures MovedAlong(held, payloads).cursor == held.cursor + |payloads|
    ensures MovedAlong(held, payloads).view == Follow(held.view.value, payloads)
  {
  }

  lemma {:induction false} ReceiptStep(state: Client, before: seq<(Message, bool)>, last: (Message, bool), payloads: seq<Payload>,
                                       client: ClientId, root: string, task: TaskId)
    requires Task(task) in state.replicas && state.replicas[Task(task)].view.Some?
    requires InOrder(before, Subscription(client, Task(task)), state.replicas[Task(task)].cursor, root)
    requires payloads == Carried(before, Subscription(client, Task(task)), state.replicas[Task(task)].cursor, root)
    requires Extends(last.0, Subscription(client, Task(task)), state.replicas[Task(task)].cursor + |payloads|, root)
    requires Follow(state.replicas[Task(task)].view.value, payloads + [last.0.event.payload]).Some?
    ensures var next := Receive(ReceiveAll(state, before, client, root), last.0, client, root, last.1);
            && Task(task) in next.replicas
            && next.replicas[Task(task)] == MovedAlong(state.replicas[Task(task)], payloads + [last.0.event.payload])
    decreases |before|, 1
  {
    hide UpdateView, Receive, MovedAlong, Passes, Follow, InOrder, Carried, ReceiveAll, EventMatches;
    var held := state.replicas[Task(task)];
    MovedOneMore(held, payloads, last.0.event);
    InOrderReceiptFollows(state, before, client, root, task);
    CursorOfMoved(held, payloads);
    LinkingEventMoves(ReceiveAll(state, before, client, root), task, last.0, last.1, client, root);
  }

  // ---------------------------------------------------------------- the copy a client holds

  /** What a subscribing step answers. */
  function ReplyOf(w: World, step: Step): Fetched<Subscribed>
    requires step.Subscribe?
  {
    var snapshot := SnapshotFor(w.log, step.scope, step.known, step.basis, step.baseline);
    if snapshot.Err? then Err(snapshot.error) else Ok(Subscribed(CursorOf(w.cursors, step.scope), step.scope, snapshot.value))
  }

  /** The client holds this copy in world `j`, and step `i` sent the reply that installed it. */
  ghost predicate Holds(run: seq<World>, steps: seq<Step>, i: nat, j: nat, client: ClientId, task: TaskId, replica: Replica) {
    && IsRunOf(run, steps) && i < j < |run|
    && steps[i].Subscribe? && steps[i].client == client && steps[i].scope == Task(task)
    && ReplyOf(run[i], steps[i]) == Ok(replica.reply)
    && client in run[j].clients && Task(task) in run[j].clients[client].replicas
    && run[j].clients[client].replicas[Task(task)] == replica
  }

  lemma {:induction false} TasksGrewOverRun(run: seq<World>, steps: seq<Step>, i: nat, j: nat)
    requires IsRunOf(run, steps) && i <= j < |run|
    ensures TasksGrew(run[i].tasks, run[j].tasks)
    decreases j - i
  {
    hide Takes, Inv, IsRunOf;
    if j > i {
      TasksGrewOverRun(run, steps, i, j - 1);
      RunStep(run, steps, j - 1);
      TasksGrewByStep(run[j - 1], run[j], steps[j - 1]);
    }
  }

  lemma TasksGrewByStep(w: World, w': World, step: Step)
    requires Takes(w, w', step)
    ensures TasksGrew(w.tasks, w'.tasks)
  {
    hide Takes;
    StepSetsTasks(w, w', step);
  }

  lemma FaithfulBefore(task: TaskId, a: Truth, b: Truth, view: TaskView)
    requires Sound(task, a) && Sound(task, b) && Grew(a, b) && Faithful(task, b, view) && view.revision <= LatestRevision(a)
    ensures Faithful(task, a, view)
  {
    var n := view.revision - a.initial.revision;
    assert a.changes[..n] == b.changes[..n];
  }

  /** The copy a copy holder holds obeys the invariant of every world. */
  lemma HeldCopyIsTrue(run: seq<World>, steps: seq<Step>, i: nat, j: nat, client: ClientId, task: TaskId, replica: Replica)
    requires Holds(run, steps, i, j, client, task, replica)
    ensures TrueReplica(run[j].tasks, run[j].streams, Task(task), replica)
  {
    hide IsRunOf, TrueReplica, TrueSent, TrueLog, TrueStreams, Truths;
    EveryWorldIsTrue(run, steps, j);
    assert TrueClient(run[j].tasks, run[j].streams, run[j].clients[client]);
  }

  /** A reply sent from a true world promises a copy that covers everything published. */
  lemma ReplyPromisesCurrent(w: World, later: map<TaskId, Truth>, step: Step, task: TaskId, reply: Subscribed, origin: TaskView)
    requires Inv(w) && TasksGrew(w.tasks, later) && Truths(later)
    requires step.Subscribe? && step.scope == Task(task) && ReplyOf(w, step) == Ok(reply)
    requires Provided(w.tasks, step.scope, step.basis, step.baseline)
    requires Founded(later, task, reply.snapshot, origin)
    ensures Current(w.tasks, task, origin) && reply.cursor == |StreamOf(w.streams, Task(task))|
  {
    hide TrueLog, TrueSent, TrueClients, Missed, Durable, At, TransientsOf;
    PublishedWithinLatest(w, task);
    if reply.snapshot.TaskResume? {
      ResumeIsTrue(w.tasks, w.log, task, step.known.value);
      MissedIsWithin(w.log, task, step.known.value, LatestRevision(w.tasks[task]));
      FaithfulBefore(task, w.tasks[task], later[task], origin);
    }
  }

  lemma MissedIsWithin(log: Tasks, task: TaskId, known: nat, current: nat)
    requires Missed(log, task, known, current).Some?
    ensures known <= current
  {
  }

  lemma SubscribingOnlyAnswers(w: World, w': World, step: Step)
    requires Takes(w, w', step) && step.Subscribe?
    ensures Provided(w.tasks, step.scope, step.basis, step.baseline) && w'.tasks == w.tasks && w'.streams == w.streams
  {
    hide Provided, SnapshotFor;
  }

  lemma OriginIsCurrent(run: seq<World>, steps: seq<Step>, i: nat, j: nat, client: ClientId, task: TaskId, replica: Replica)
    requires Holds(run, steps, i, j, client, task, replica)
    ensures replica.origin.Some? && Current(run[i + 1].tasks, task, replica.origin.value)
    ensures |StreamOf(run[i + 1].streams, Task(task))| == replica.reply.cursor
  {
    hide IsRunOf, Inv, Takes, Current, ReplyOf, Truths, Founded, TasksGrew, StreamOf, Provided, TrueView, Follow;
    HeldCopyIsTrue(run, steps, i, j, client, task, replica);
    TasksGrewOverRun(run, steps, i, j);
    EveryWorldIsTrue(run, steps, i);
    EveryWorldIsTrue(run, steps, j);
    RunStep(run, steps, i);
    TruthsHold(run[j]);
    SubscribingOnlyAnswers(run[i], run[i + 1], steps[i]);
    ReplyPromisesCurrent(run[i], run[j].tasks, steps[i], task, replica.reply, replica.origin.value);
  }

  lemma {:induction false} WorldOfLength(run: seq<World>, steps: seq<Step>, a: nat, b: nat, task: TaskId, n: nat) returns (k: nat)
    requires IsRunOf(run, steps) && a <= b < |run|
    requires |StreamOf(run[a].streams, Task(task))| <= n <= |StreamOf(run[b].streams, Task(task))|
    ensures a <= k <= b && |StreamOf(run[k].streams, Task(task))| == n
    decreases b - a
  {
    hide IsRunOf, Takes, StreamStepOf, StreamOf;
    if |StreamOf(run[b].streams, Task(task))| == n {
      k := b;
    } else {
      RunStep(run, steps, b - 1);
      StreamGrowsByStep(run[b - 1], run[b], steps[b - 1], task);
      k := WorldOfLength(run, steps, a, b - 1, task, n);
    }
  }

  lemma PrefixSlices(whole: seq<Payload>, part: seq<Payload>, base: nat)
    requires part <= whole && base <= |part|
    ensures whole[base..|part|] == part[base..]
  {
  }

  /** While the client stays subscribed, the copy it holds in the run is what following its stream
      makes of what its reply gave it: the committed Task, covering everything that was published
      when the stream was where the copy is. */
  lemma HeldCopyIsCurrent(run: seq<World>, steps: seq<Step>, i: nat, k: nat, j: nat, client: ClientId, task: TaskId, replica: Replica)
    requires Holds(run, steps, i, j, client, task, replica) && k <= j
    requires Follows(run, steps, i + 1, k, Subscription(client, Task(task)))
    requires |StreamOf(run[k].streams, Task(task))| == replica.cursor
    ensures replica.view.Some? && Current(run[k].tasks, task, replica.view.value)
  {
    hide IsRunOf, Current, TrueView, Founded, StreamOf, Follow, ReplyOf;
    HeldCopyIsTrue(run, steps, i, j, client, task, replica);
    OriginIsCurrent(run, steps, i, j, client, task, replica);
    SubscribedCopyStaysCurrent(run, steps, i + 1, k, client, task, replica.origin.value);
    StreamLengthsGrow(run, steps, k, j, task);
    PrefixSlices(StreamOf(run[j].streams, Task(task)), StreamOf(run[k].streams, Task(task)), replica.reply.cursor);
  }

  /** There always is such a moment. */
  lemma HeldCopyHasItsWorld(run: seq<World>, steps: seq<Step>, i: nat, j: nat, client: ClientId, task: TaskId, replica: Replica)
    returns (k: nat)
    requires Holds(run, steps, i, j, client, task, replica)
    requires Follows(run, steps, i + 1, j, Subscription(client, Task(task)))
    ensures i < k <= j && |StreamOf(run[k].streams, Task(task))| == replica.cursor
    ensures replica.view.Some? && Current(run[k].tasks, task, replica.view.value)
  {
    hide Current, TrueView, Founded, StreamOf, IsRunOf, Holds, Follow;
    HeldCopyIsTrue(run, steps, i, j, client, task, replica);
    OriginIsCurrent(run, steps, i, j, client, task, replica);
    k := WorldOfLength(run, steps, i + 1, j, task, replica.cursor);
    HeldCopyIsCurrent(run, steps, i, k, j, client, task, replica);
  }

  /** A copy at the end of its stream, with everything committed published, is the committed Task. */
  lemma CaughtUpCopyIsCommitted(run: seq<World>, steps: seq<Step>, i: nat, j: nat, client: ClientId, task: TaskId, replica: Replica)
    requires Holds(run, steps, i, j, client, task, replica)
    requires Follows(run, steps, i + 1, j, Subscription(client, Task(task)))
    requires replica.cursor == |StreamOf(run[j].streams, Task(task))|
    requires task in run[j].tasks && run[j].tasks[task].published == |run[j].tasks[task].changes|
    ensures Sound(task, run[j].tasks[task]) && replica.view.Some?
    ensures replica.view.value.revision == LatestRevision(run[j].tasks[task])
    ensures Durable(replica.view.value) == Durable(At(task, run[j].tasks[task], LatestRevision(run[j].tasks[task])))
  {
    hide Holds, Follows, At, Durable, StreamOf;
    HeldCopyIsCurrent(run, steps, i, j, j, client, task, replica);
  }

  // ---------------------------------------------------------------- every copy came from a reply

  lemma StepSends(w: World, w': World, step: Step, client: ClientId, message: Message)
    requires Takes(w, w', step) && (client, message) in w'.sent && (client, message) !in w.sent
    ensures message.Reply? ==> step.Subscribe? && step.client == client && ReplyOf(w, step) == Ok(message.reply)
    ensures message.Live? ==>
              EventMatches(message.event.scope, message.event.payload, Subscription(client, message.event.subscription), w.root)
  {
    hide Recorded, SnapshotFor, Receive, Leave, CursorsAdvance, EventMatches;
    if Publishes(step) {
      PublishingBroadcasts(w, w', step);
      hide Takes;
      var d :| d in step.out && (client, message) == (d.client, Live(d.event));
      assert Subscription(d.client, d.event.subscription) in MatchingAt(w, step);
    }
  }

  lemma RootStays(w: World, w': World, step: Step)
    requires Takes(w, w', step)
    ensures w'.root == w.root && w.sent <= w'.sent
  {
    hide Recorded, SnapshotFor, Receive, Leave, CursorsAdvance, DeliversExactly;
  }

  /** Whatever was sent was answered or routed to its addressee by some step. */
  lemma {:induction false} SentByAStep(run: seq<World>, steps: seq<Step>, j: nat, client: ClientId, message: Message)
    returns (i: nat)
    requires IsRunOf(run, steps) && j < |run| && (client, message) in run[j].sent
    ensures i < j
    ensures message.Reply? ==> steps[i].Subscribe? && steps[i].client == client && ReplyOf(run[i], steps[i]) == Ok(message.reply)
    ensures message.Live? ==>
              EventMatches(message.event.scope, message.event.payload, Subscription(client, message.event.subscription), run[j].root)
    decreases j
  {
    hide Takes, ReplyOf, EventMatches;
    NothingSentYet(run, steps);
    hide IsRunOf;
    RunStep(run, steps, j - 1);
    RootStays(run[j - 1], run[j], steps[j - 1]);
    if (client, message) in run[j - 1].sent {
      i := SentByAStep(run, steps, j - 1, client, message);
    } else {
      StepSends(run[j - 1], run[j], steps[j - 1], client, message);
      i := j - 1;
    }
  }

  lemma NothingSentYet(run: seq<World>, steps: seq<Step>)
    requires IsRunOf(run, steps)
    ensures |run| == |steps| + 1 && run[0].sent == {} && run[0].clients == map[]
  {
  }

  /** The step delivered the one event that links to the copy's cursor. */
  predicate MovedByLink(step: Step, client: ClientId, scope: Scope, before: Replica, after: Replica) {
    && step.Deliver? && step.client == client && step.message.Live? && step.message.event.subscription == scope
    && step.message.event.previousCursor == before.cursor
    && after == before.(cursor := step.message.event.cursor, applied := before.applied + [step.message.event.payload],
                        view := after.view)
  }

  /** The copy is what a reply sent to the client makes. */
  predicate JustInstalled(w: World, client: ClientId, after: Replica) {
    && (client, Reply(after.reply)) in w.sent
    && after.cursor == after.reply.cursor && after.applied == [] && after.view == after.origin
  }

  /** What a step may do to a copy: leave it, move it along the one event that links to its cursor, or
      put what a reply makes in its place. */
  lemma OnlyTheLinkApplies(w: World, w': World, step: Step, client: ClientId, scope: Scope)
    requires Takes(w, w', step) && client in w'.clients && scope in w'.clients[client].replicas
    ensures var after := w'.clients[client].replicas[scope];
            || (client in w.clients && scope in w.clients[client].replicas
                && var before := w.clients[client].replicas[scope];
                   after == before || MovedByLink(step, client, scope, before, after))
            || JustInstalled(w, client, after)
  {
    hide Recorded, Broadcast, SnapshotFor, Receive, JustInstalled, MovedByLink;
    if step.Deliver? && step.client == client {
      DeliveryApplies(w, step, client, scope);
    }
  }

  lemma DeliveryApplies(w: World, step: Step, client: ClientId, scope: Scope)
    requires step.Deliver? && step.client == client && (client, step.message) in w.sent
    ensures var state := ClientState(w, client);
            var next := Receive(state, step.message, client, w.root, step.contentOk);
            scope in next.replicas ==>
              var after := next.replicas[scope];
              || (scope in state.replicas && (after == state.replicas[scope]
                                              || MovedByLink(step, client, scope, state.replicas[scope], after)))
              || JustInstalled(w, client, after)
  {
    hide ClientMatch, UpdateView, ResumeView;
  }

  lemma {:induction false} CopyReplyWasSent(run: seq<World>, steps: seq<Step>, j: nat, client: ClientId, scope: Scope)
    requires IsRunOf(run, steps) && j < |run| && client in run[j].clients && scope in run[j].clients[client].replicas
    ensures (client, Reply(run[j].clients[client].replicas[scope].reply)) in run[j].sent
    decreases j
  {
    hide Takes;
    NothingSentYet(run, steps);
    hide IsRunOf;
    RunStep(run, steps, j - 1);
    RootStays(run[j - 1], run[j], steps[j - 1]);
    OnlyTheLinkApplies(run[j - 1], run[j], steps[j - 1], client, scope);
    if client in run[j - 1].clients && scope in run[j - 1].clients[client].replicas {
      CopyReplyWasSent(run, steps, j - 1, client, scope);
    }
  }

  /** Every Task copy any client holds was installed by a reply some subscribing step sent it. */
  lemma EveryCopyHasItsReply(run: seq<World>, steps: seq<Step>, j: nat, client: ClientId, task: TaskId) returns (i: nat)
    requires IsRunOf(run, steps) && j < |run| && client in run[j].clients && Task(task) in run[j].clients[client].replicas
    ensures Holds(run, steps, i, j, client, task, run[j].clients[client].replicas[Task(task)])
  {
    var replica := run[j].clients[client].replicas[Task(task)];
    CopyReplyWasSent(run, steps, j, client, Task(task));
    i := SentByAStep(run, steps, j, client, Reply(replica.reply));
    EveryWorldIsTrue(run, steps, j);
    hide IsRunOf, TrueLog, TrueStreams, TrueSent, TrueContents, SnapshotFor;
    assert TrueClient(run[j].tasks, run[j].streams, run[j].clients[client]);
    assert TrueReplica(run[j].tasks, run[j].streams, Task(task), replica);
  }

  // ---------------------------------------------------------------- one delivery

  lemma OneMorePayload(whole: seq<Payload>, base: nat, cursor: nat)
    requires base <= cursor < |whole|
    ensures whole[base..cursor + 1] == whole[base..cursor] + [whole[cursor]]
  {
  }

  /** Following one event further never asks for a resync. */
  lemma NextEventIsIngestible(run: seq<World>, steps: seq<Step>, i: nat, j: nat, client: ClientId, task: TaskId, replica: Replica)
    requires Holds(run, steps, i, j, client, task, replica)
    requires Follows(run, steps, i + 1, j, Subscription(client, Task(task)))
    requires replica.cursor < |StreamOf(run[j].streams, Task(task))|
    ensures replica.view.Some?
    ensures !UpdateView(replica.view.value, StreamOf(run[j].streams, Task(task))[replica.cursor]).ResyncRequired?
  {
    hide Holds, Current, TrueView, Founded, StreamOf, IsRunOf, UpdateView, Follow;
    HeldCopyIsTrue(run, steps, i, j, client, task, replica);
    OriginIsCurrent(run, steps, i, j, client, task, replica);
    assert IsRunOf(run, steps) && i + 1 <= j < |run|;
    var k := WorldOfLength(run, steps, i + 1, j, task, replica.cursor + 1);
    SubscribedCopyStaysCurrent(run, steps, i + 1, k, client, task, replica.origin.value);
    StreamLengthsGrow(run, steps, k, j, task);
    var whole, part := StreamOf(run[j].streams, Task(task)), StreamOf(run[k].streams, Task(task));
    var next := whole[replica.cursor];
    PrefixSlices(whole, part, replica.reply.cursor);
    OneMorePayload(whole, replica.reply.cursor, replica.cursor);
    FollowLast(replica.origin.value, replica.applied, next);
  }

  /** Delivering an event of its stream to a client that stayed subscribed: the next one moves its
      copy, the last one again changes nothing, and any other shows that something was lost or came
      out of order, so the copy is given up. */
  lemma DeliveryMovesOrEndsTheCopy(run: seq<World>, steps: seq<Step>, i: nat, j: nat, client: ClientId, task: TaskId,
                                   replica: Replica, event: Event, contentOk: bool)
    requires Holds(run, steps, i, j, client, task, replica) && j < |steps|
    requires Follows(run, steps, i + 1, j, Subscription(client, Task(task)))
    requires steps[j] == Deliver(client, Live(event), contentOk) && event.subscription == Task(task)
    ensures client in run[j + 1].clients
    ensures var after := run[j + 1].clients[client].replicas;
            if event.cursor == replica.cursor then Task(task) in after && after[Task(task)] == replica
            else if event.previousCursor == replica.cursor then
              && Task(task) in after
              && after[Task(task)].reply == replica.reply && after[Task(task)].cursor == replica.cursor + 1
            else Task(task) !in after
  {
    var state := run[j].clients[client];
    var message := Live(event);
    DeliveryIsTrue(run, steps, j, client, event, contentOk);
    HeldCopyIsTrue(run, steps, i, j, client, task, replica);
    hide IsRunOf, StreamOf, UpdateView, EventMatches, TrueContents, Receive;
    if event.cursor == replica.cursor {
      PassingChangesNothing(state, task, message, contentOk, client, run[j].root);
    } else if event.previousCursor == replica.cursor {
      NextEventIsIngestible(run, steps, i, j, client, task, replica);
      LinkingEventMoves(state, task, message, contentOk, client, run[j].root);
    } else {
      StrayEventEndsTheCopy(state, task, event, contentOk, client, run[j].root);
    }
  }

  lemma DeliveryIsTrue(run: seq<World>, steps: seq<Step>, j: nat, client: ClientId, event: Event, contentOk: bool)
    requires IsRunOf(run, steps) && j < |steps| && steps[j] == Deliver(client, Live(event), contentOk) && client in run[j].clients
    ensures client in run[j + 1].clients
    ensures run[j + 1].clients[client] == Receive(run[j].clients[client], Live(event), client, run[j].root, contentOk)
    ensures EventMatches(event.scope, event.payload, Subscription(client, event.subscription), run[j].root)
    ensures event.cursor == event.previousCursor + 1 <= |StreamOf(run[j].streams, event.subscription)|
    ensures event.payload == StreamOf(run[j].streams, event.subscription)[event.previousCursor]
  {
    RunStep(run, steps, j);
    assert (client, Live(event)) in run[j].sent;
    var i := SentByAStep(run, steps, j, client, Live(event));
    EveryWorldIsTrue(run, steps, j);
    hide IsRunOf, TrueLog, TrueStreams, TrueClients, Truths, Receive, EventMatches;
    SentIsTrue(run[j], client, Live(event));
  }

  lemma StrayEventEndsTheCopy(state: Client, task: TaskId, event: Event, contentOk: bool, client: ClientId, root: string)
    requires Task(task) in state.replicas && event.subscription == Task(task)
    requires EventMatches(event.scope, event.payload, Subscription(client, Task(task)), root)
    requires event.cursor != state.replicas[Task(task)].cursor && event.previousCursor != state.replicas[Task(task)].cursor
    ensures Task(task) !in Receive(state, Live(event), client, root, contentOk).replicas
  {
    hide EventMatches, ClientMatch, UpdateView;
    ClientAcceptsRoutedEvents(event.scope, event.payload, Subscription(client, Task(task)), root);
  }

  /** A worktree repository's follower that is sent its own snapshot passes over it, so its next event
      no longer links and the copy is given up. */
  lemma WorktreeCopyLosesItsPlace(replica: Replica, client: ClientId, repository: string, root: string, snapshot: string,
                                  content: string, contentOk: bool)
    requires replica.reply.scope == WorktreeRepository(repository)
    ensures var scope, n := WorktreeRepository(repository), replica.cursor;
            var own := Event(scope, n, n + 1, ClientScope(root, client), SnapshotReplaced(None, snapshot));
            var next := Event(scope, n + 1, n + 2, StateRootScope(root), WorktreeRepositoryUpdated(repository, content));
            && EventMatches(own.scope, own.payload, Subscription(client, scope), root)
            && EventMatches(next.scope, next.payload, Subscription(client, scope), root)
            && IngestEvent(replica, own, client, root, contentOk) == Ignored
            && IngestEvent(replica, next, client, root, contentOk) == Resync("cursorGap")
  {
    WorktreeSnapshotIsRefused(client, repository, root, snapshot);
  }

  // ---------------------------------------------------------------- resume and baseline meet

  /** A resume built from the retained changes starts a copy that is current. */
  lemma ResumeStartsCurrent(w: World, task: TaskId, copy: TaskView, current: Transients)
    requires Inv(w) && TrueView(w.tasks, task, copy)
    requires Missed(w.log, task, copy.revision, LatestRevision(w.tasks[task])).Some?
    ensures var missed := Missed(w.log, task, copy.revision, LatestRevision(w.tasks[task])).value;
            var r := ResumeView(copy, Resume(task, copy.revision, missed, current));
            r.Some? && Current(w.tasks, task, r.value) && TransientsOf(r.value) == current
  {
    var missed := Missed(w.log, task, copy.revision, LatestRevision(w.tasks[task])).value;
    hide Missed, TrueStreams, TrueSent, TrueClients, At;
    ResumeIsTrue(w.tasks, w.log, task, copy.revision);
    ReplayMissedIsFaithful(task, w.tasks[task], copy, missed);
    DurableIgnoresTransients(ReplayMissed(copy, missed).value, current);
  }

  /** Equal in everything but whether the workspace exists, which a change may also report. */
  predicate Alike(a: TaskView, b: TaskView) {
    a.(summary := a.summary.(workspaceAvailable := false)) == b.(summary := b.summary.(workspaceAvailable := false))
  }

  /** Two copies of one Task on their way to the same state: the unrevisioned parts agree, and the
      revisions agree or the first one lies behind where the second one started. */
  predicate Converging(a: TaskView, b: TaskView, start: nat) {
    && a.summary.taskId == b.summary.taskId
    && a.historySync == b.historySync && a.pendingRequests == b.pendingRequests && a.subagents == b.subagents
    && b.revision >= start
    && (a.revision == b.revision || (a.revision <= start && b.revision == start))
  }

  function Updated(view: TaskView, payload: Payload): TaskView {
    var r := UpdateView(view, payload);
    if r.Changed? then r.view else view
  }

  /** The last word the changes have on whether the workspace exists. */
  function Availability(changes: seq<TaskChanges>, before: bool): bool {
    if changes == [] then before
    else
      var last := changes[|changes| - 1];
      if last.summary.Some? then last.summary.value.workspaceAvailable else Availability(changes[..|changes| - 1], before)
  }

  /** The payload says what the whole Task is, or what its summary is after `start`. */
  predicate Resets(payload: Payload, task: TaskId, start: nat) {
    match payload
    case SnapshotReplaced(active, _) => active.Some? && active.value.summary.taskId == task
    case TaskChanged(changed, revision, changes) => changed == task && revision > start && changes.summary.Some?
    case _ => false
  }

  predicate AnyResets(payloads: seq<Payload>, task: TaskId, start: nat) {
    exists n :: 0 <= n < |payloads| && Resets(payloads[n], task, start)
  }

  /** The committed changes from one revision to another. */
  function Between(truth: Truth, from: nat, to: nat): seq<TaskChanges>
    requires truth.initial.revision <= from <= to <= LatestRevision(truth)
  {
    truth.changes[from - truth.initial.revision..to - truth.initial.revision]
  }

  function Least(a: nat, b: nat): nat {
    if a < b then a else b
  }

  /** No change of the stretch carries a summary. */
  predicate Silent(truth: Truth, from: nat, to: nat)
    requires truth.initial.revision <= from <= to <= LatestRevision(truth)
  {
    forall n :: from - truth.initial.revision <= n < to - truth.initial.revision ==> truth.changes[n].summary.None?
  }

  /** How the two copies stand to each other while they follow the same payloads. */
  predicate Abreast(truth: Truth, a: TaskView, b: TaskView, from: nat, start: nat, before: bool, reset: bool) {
    && truth.initial.revision <= from <= start <= LatestRevision(truth)
    && if reset then a == b
       else
         && Converging(a, b, start) && from <= a.revision && b.revision <= LatestRevision(truth)
         && Silent(truth, start, b.revision)
         && b.summary.workspaceAvailable == before
         && a.summary.workspaceAvailable == Availability(Between(truth, from, Least(a.revision, start)), before)
  }

  /** A payload has reset whether the workspace exists, or the changes between the copies left it as the
      further copy has it. */
  predicate AvailabilitySettled(truth: Truth, task: TaskId, from: nat, further: TaskView, payloads: seq<Payload>) {
    || AnyResets(payloads, task, further.revision)
    || (truth.initial.revision <= from <= further.revision <= LatestRevision(truth)
        && Availability(Between(truth, from, further.revision), further.summary.workspaceAvailable)
           == further.summary.workspaceAvailable)
  }

  lemma SameRevisionSameTask(tasks: map<TaskId, Truth>, task: TaskId, a: TaskView, b: TaskView, start: nat)
    requires TrueView(tasks, task, a) && TrueView(tasks, task, b) && Converging(a, b, start) && a.revision == b.revision
    ensures Alike(a, b)
    ensures a == b <==> a.summary.workspaceAvailable == b.summary.workspaceAvailable
  {
    var still := Transients(false, a.historySync, a.pendingRequests, a.subagents);
    assert WithTransients(Durable(a), still) == WithTransients(a, still);
    assert WithTransients(Durable(b), still) == WithTransients(b, still);
  }

  /** What a change does to the fields the comparison is about. */
  lemma ChangeSetsAvailability(tasks: map<TaskId, Truth>, task: TaskId, view: TaskView, payload: Payload)
    requires TrueView(tasks, task, view) && TruePayload(tasks, payload)
    requires payload.TaskChanged? && payload.changedTask == task && !UpdateView(view, payload).ResyncRequired?
    ensures payload.revision <= view.revision + 1
    ensures var next := Updated(view, payload);
            && TrueView(tasks, task, next)
            && next.historySync == view.historySync && next.pendingRequests == view.pendingRequests
            && next.subagents == view.subagents && next.summary.taskId == task
            && if payload.revision <= view.revision then next == view
               else
                 && next.revision == payload.revision
                 && next.summary.workspaceAvailable == if payload.changes.summary.Some? then payload.changes.summary.value.workspaceAvailable
                                                       else view.summary.workspaceAvailable
  {
    hide Faithful, At, ApplyChat;
    IdentityIsKept(tasks, task, view);
    IngestStaysFaithful(task, tasks[task], view, payload.revision);
    UpdateStaysTrue(tasks, task, view, payload);
    IdentityIsKept(tasks, task, Updated(view, payload));
  }

  lemma OneMoreChange(truth: Truth, from: nat, to: nat, before: bool)
    requires truth.initial.revision <= from <= to < LatestRevision(truth)
    ensures var last := truth.changes[to - truth.initial.revision];
            Availability(Between(truth, from, to + 1), before)
            == if last.summary.Some? then last.summary.value.workspaceAvailable else Availability(Between(truth, from, to), before)
  {
    var all := Between(truth, from, to + 1);
    assert all[..|all| - 1] == Between(truth, from, to);
  }

  lemma ChangeKeepsAbreast(tasks: map<TaskId, Truth>, task: TaskId, a: TaskView, b: TaskView, from: nat, start: nat,
                           before: bool, reset: bool, payload: Payload)
    requires TrueView(tasks, task, a) && TrueView(tasks, task, b) && TruePayload(tasks, payload)
    requires Abreast(tasks[task], a, b, from, start, before, reset)
    requires payload.TaskChanged? && payload.changedTask == task
    requires !UpdateView(a, payload).ResyncRequired? && !UpdateView(b, payload).ResyncRequired?
    ensures Abreast(tasks[task], Updated(a, payload), Updated(b, payload), from, start, before,
                    reset || Resets(payload, task, start))
  {
    hide TrueView, UpdateView, Availability, Between, Updated;
    ChangeSetsAvailability(tasks, task, a, payload);
    ChangeSetsAvailability(tasks, task, b, payload);
    if !reset {
      if payload.revision == a.revision + 1 && payload.revision <= start {
        OneMoreChange(tasks[task], from, a.revision, before);
      }
      if payload.revision > start && payload.revision > a.revision && Resets(payload, task, start) {
        SameRevisionSameTask(tasks, task, Updated(a, payload), Updated(b, payload), start);
      }
    }
  }

  lemma OtherKeepsAbreast(tasks: map<TaskId, Truth>, task: TaskId, a: TaskView, b: TaskView, from: nat, start: nat,
                          before: bool, reset: bool, payload: Payload)
    requires TrueView(tasks, task, a) && TrueView(tasks, task, b) && TruePayload(tasks, payload)
    requires Abreast(tasks[task], a, b, from, start, before, reset)
    requires !(payload.TaskChanged? && payload.changedTask == task)
    requires !(payload.SnapshotReplaced? && Resets(payload, task, start))
    ensures Abreast(tasks[task], Updated(a, payload), Updated(b, payload), from, start, before, reset)
    ensures !Resets(payload, task, start)
  {
    hide Faithful, At, Availability, Between;
    IdentityIsKept(tasks, task, a);
  }

  lemma SnapshotKeepsAbreast(truth: Truth, task: TaskId, a: TaskView, b: TaskView, from: nat, start: nat,
                             before: bool, reset: bool, payload: Payload)
    requires Abreast(truth, a, b, from, start, before, reset)
    requires payload.SnapshotReplaced? && Resets(payload, task, start) && a.summary.taskId == task && b.summary.taskId == task
    ensures Abreast(truth, Updated(a, payload), Updated(b, payload), from, start, before, true)
  {
  }

  lemma PayloadKeepsAbreast(tasks: map<TaskId, Truth>, task: TaskId, a: TaskView, b: TaskView, from: nat, start: nat,
                            before: bool, reset: bool, payload: Payload)
    requires TrueView(tasks, task, a) && TrueView(tasks, task, b) && TruePayload(tasks, payload)
    requires Abreast(tasks[task], a, b, from, start, before, reset)
    requires !UpdateView(a, payload).ResyncRequired? && !UpdateView(b, payload).ResyncRequired?
    ensures Abreast(tasks[task], Updated(a, payload), Updated(b, payload), from, start, before,
                    reset || Resets(payload, task, start))
    ensures TrueView(tasks, task, Updated(a, payload)) && TrueView(tasks, task, Updated(b, payload))
  {
    UpdateStaysTrue(tasks, task, a, payload);
    UpdateStaysTrue(tasks, task, b, payload);
    IdentityIsKept(tasks, task, a);
    IdentityIsKept(tasks, task, b);
    hide TrueView, UpdateView, Abreast, TruePayload;
    if payload.TaskChanged? && payload.changedTask == task {
      ChangeKeepsAbreast(tasks, task, a, b, from, start, before, reset, payload);
    } else if payload.SnapshotReplaced? && Resets(payload, task, start) {
      SnapshotKeepsAbreast(tasks[task], task, a, b, from, start, before, reset, payload);
    } else {
      OtherKeepsAbreast(tasks, task, a, b, from, start, before, reset, payload);
    }
  }

  lemma ResetsSoFar(payloads: seq<Payload>, last: Payload, task: TaskId, start: nat)
    ensures AnyResets(payloads + [last], task, start) <==> AnyResets(payloads, task, start) || Resets(last, task, start)
  {
    var all := payloads + [last];
    if AnyResets(payloads, task, start) {
      var n :| 0 <= n < |payloads| && Resets(payloads[n], task, start);
      assert all[n] == payloads[n];
    }
    assert all[|payloads|] == last;
  }

  /** Two copies that follow the same payloads stay abreast. */
  lemma {:induction false} CopiesStayAbreast(tasks: map<TaskId, Truth>, task: TaskId, a: TaskView, b: TaskView,
                                             payloads: seq<Payload>)
    requires TrueView(tasks, task, a) && TrueView(tasks, task, b) && a.revision <= b.revision
    requires TransientsOf(a) == TransientsOf(b)
    requires forall n :: 0 <= n < |payloads| ==> TruePayload(tasks, payloads[n])
    requires Follow(a, payloads).Some? && Follow(b, payloads).Some?
    ensures var x, y := Follow(a, payloads).value, Follow(b, payloads).value;
            && TrueView(tasks, task, x) && TrueView(tasks, task, y)
            && Abreast(tasks[task], x, y, a.revision, b.revision, b.summary.workspaceAvailable,
                       AnyResets(payloads, task, b.revision))
    decreases |payloads|
  {
    hide TrueView, UpdateView, Abreast, TruePayload, Follow, Resets, AnyResets, TransientsOf;
    if payloads == [] {
      StartAbreast(tasks, task, a, b);
      FollowNone(a, task, b.revision);
      FollowNone(b, task, b.revision);
    } else {
      var before, last := payloads[..|payloads| - 1], payloads[|payloads| - 1];
      assert payloads == before + [last];
      FollowLast(a, before, last);
      FollowLast(b, before, last);
      CopiesStayAbreast(tasks, task, a, b, before);
      ResetsSoFar(before, last, task, b.revision);
      PayloadKeepsAbreast(tasks, task, Follow(a, before).value, Follow(b, before).value, a.revision, b.revision,
                          b.summary.workspaceAvailable, AnyResets(before, task, b.revision), last);
    }
  }

  lemma FollowNone(view: TaskView, task: TaskId, start: nat)
    ensures Follow(view, []) == Some(view) && !AnyResets([], task, start)
  {
  }

  lemma StartAbreast(tasks: map<TaskId, Truth>, task: TaskId, a: TaskView, b: TaskView)
    requires TrueView(tasks, task, a) && TrueView(tasks, task, b) && a.revision <= b.revision
    requires TransientsOf(a) == TransientsOf(b)
    ensures Abreast(tasks[task], a, b, a.revision, b.revision, b.summary.workspaceAvailable, false)
  {
    hide At, Durable;
  }

  /** Once the published changes cover where the further copy started, the two copies hold the same
      Task.  They may disagree on whether the workspace exists, exactly when nothing has reset it and
      the changes only one of them ingested left it otherwise. */
  lemma CopiesMeet(tasks: map<TaskId, Truth>, task: TaskId, a: TaskView, b: TaskView, payloads: seq<Payload>)
    requires TrueView(tasks, task, a) && TrueView(tasks, task, b) && a.revision <= b.revision
    requires TransientsOf(a) == TransientsOf(b)
    requires forall n :: 0 <= n < |payloads| ==> TruePayload(tasks, payloads[n])
    requires Follow(a, payloads).Some? && Follow(b, payloads).Some?
    requires Follow(a, payloads).value.revision >= b.revision
    ensures var x, y := Follow(a, payloads).value, Follow(b, payloads).value;
            && Alike(x, y)
            && (x == y <==> AvailabilitySettled(tasks[task], task, a.revision, b, payloads))
  {
    var x, y := Follow(a, payloads).value, Follow(b, payloads).value;
    BoundedByLatest(tasks, task, a);
    BoundedByLatest(tasks, task, b);
    CopiesStayAbreast(tasks, task, a, b, payloads);
    hide TrueView, Follow, Resets, AnyResets, TransientsOf, Availability, Between, TruePayload;
    if !AnyResets(payloads, task, b.revision) {
      SameRevisionSameTask(tasks, task, x, y, b.revision);
    }
  }

  /** The disagreement is real: a copy that lags by one change whose summary says the workspace is gone,
      and a copy taken after it when the workspace was back, differ once the change arrives. */
  lemma AvailabilityMayDiffer(view: TaskView, changes: TaskChanges)
    requires view.summary.workspaceAvailable && changes.chat == []
    requires changes.summary == Some(view.summary.(workspaceAvailable := false))
    ensures ApplyChanges(view, view.revision + 1, changes).Some?
    ensures var ahead := WithTransients(ApplyChanges(view, view.revision + 1, changes).value, TransientsOf(view));
            var payload := TaskChanged(view.summary.taskId, view.revision + 1, changes);
            && TransientsOf(ahead) == TransientsOf(view)
            && Follow(view, [payload]).Some? && Follow(ahead, [payload]) == Some(ahead)
            && Follow(view, [payload]).value.revision == ahead.revision && Follow(view, [payload]).value != ahead
  {
    var payload := TaskChanged(view.summary.taskId, view.revision + 1, changes);
    assert [payload][..0] == [];
  }

  /** Resume equals baseline.  Take a client that was answered with a resume, stayed subscribed and has
      ingested its whole stream, and any baseline the same reply could have carried.  Once the
      published changes cover that baseline, the client holds the Task a baseline followed by the same
      events would have given it; on whether the workspace exists they agree exactly when CopiesMeet
      says so. */
  lemma ResumeMeetsBaseline(run: seq<World>, steps: seq<Step>, i: nat, j: nat, client: ClientId, task: TaskId, replica: Replica,
                            baseline: TaskView)
    requires Holds(run, steps, i, j, client, task, replica) && replica.reply.snapshot.TaskResume?
    requires Follows(run, steps, i + 1, j, Subscription(client, Task(task)))
    requires replica.cursor == |StreamOf(run[j].streams, Task(task))|
    requires TrueView(run[i].tasks, task, baseline) && baseline.revision == LatestRevision(run[i].tasks[task])
    requires TransientsOf(baseline) == replica.reply.snapshot.resume.current
    requires task in run[j].tasks && PublishedRevision(run[j].tasks[task]) >= baseline.revision
    ensures |StreamOf(run[i + 1].streams, Task(task))| <= |StreamOf(run[j].streams, Task(task))|
    ensures replica.view.Some? && TrueView(run[j].tasks, task, replica.view.value) && replica.origin.Some?
    ensures var other := FollowTo(run, i + 1, j, task, baseline);
            && other.Some? && Alike(replica.view.value, other.value)
            && (replica.view == other <==>
                  AvailabilitySettled(run[j].tasks[task], task, replica.origin.value.revision, baseline, replica.applied))
  {
    hide IsRunOf, Current, Follow, TransientsOf, Alike, AvailabilitySettled, StreamOf, TruePayload, TrueView;
    HeldCopyIsTrue(run, steps, i, j, client, task, replica);
    OriginIsCurrent(run, steps, i, j, client, task, replica);
    HeldCopyIsCurrent(run, steps, i, j, j, client, task, replica);
    CurrentCovers(run[i + 1].tasks, task, replica.origin.value);
    BaselineWouldBeCurrent(run, steps, i, j, task, baseline, replica.origin.value);
    PrefixSlices(StreamOf(run[j].streams, Task(task)), StreamOf(run[j].streams, Task(task)), replica.reply.cursor);
    SubscribedCopyStaysCurrent(run, steps, i + 1, j, client, task, baseline);
    PublishedIsTrue(run, steps, j, Task(task));
    CurrentCovers(run[j].tasks, task, replica.view.value);
    CopiesMeet(run[j].tasks, task, replica.origin.value, baseline, replica.applied);
  }

  lemma TrueIsThere(tasks: map<TaskId, Truth>, task: TaskId, view: TaskView)
    requires TrueView(tasks, task, view)
    ensures task in tasks
  {
  }

  lemma CurrentCovers(tasks: map<TaskId, Truth>, task: TaskId, view: TaskView)
    requires Current(tasks, task, view)
    ensures TrueView(tasks, task, view) && view.revision >= PublishedRevision(tasks[task])
  {
    hide TrueView;
  }

  lemma PublishedIsTrue(run: seq<World>, steps: seq<Step>, j: nat, scope: Scope)
    requires IsRunOf(run, steps) && j < |run|
    ensures forall n :: 0 <= n < |StreamOf(run[j].streams, scope)| ==> TruePayload(run[j].tasks, StreamOf(run[j].streams, scope)[n])
  {
    hide IsRunOf, TruePayload;
    EveryWorldIsTrue(run, steps, j);
  }

  /** The baseline is current from the reply on, and no older than what the resume made. */
  lemma BaselineWouldBeCurrent(run: seq<World>, steps: seq<Step>, i: nat, j: nat, task: TaskId, baseline: TaskView, origin: TaskView)
    requires IsRunOf(run, steps) && i + 1 <= j < |run| && steps[i].Subscribe?
    requires TrueView(run[i].tasks, task, baseline) && baseline.revision == LatestRevision(run[i].tasks[task])
    requires TrueView(run[i + 1].tasks, task, origin)
    ensures Current(run[i + 1].tasks, task, baseline) && origin.revision <= baseline.revision
    ensures TrueView(run[j].tasks, task, baseline) && TrueView(run[j].tasks, task, origin)
  {
    hide IsRunOf, Takes, Inv, TasksGrew, Truths, TrueView;
    RunStep(run, steps, i);
    EveryWorldIsTrue(run, steps, i);
    EveryWorldIsTrue(run, steps, j);
    TruthsHold(run[j]);
    TasksGrewOverRun(run, steps, i + 1, j);
    TrueIsThere(run[i].tasks, task, baseline);
    PublishedWithinLatest(run[i], task);
    StepSetsTasks(run[i], run[i + 1], steps[i]);
    ViewGrows(run[i + 1].tasks, run[j].tasks, task, baseline);
    ViewGrows(run[i + 1].tasks, run[j].tasks, task, origin);
    BoundedByLatest(run[i].tasks, task, origin);
  }

  lemma TruthsHold(w: World)
    requires Inv(w)
    ensures Truths(w.tasks)
  {
  }

  lemma BoundedByLatest(tasks: map<TaskId, Truth>, task: TaskId, view: TaskView)
    requires TrueView(tasks, task, view)
    ensures view.revision <= LatestRevision(tasks[task]) && view.summary.taskId == task
  {
  }

  lemma PublishedWithinLatest(w: World, task: TaskId)
    requires Inv(w) && task in w.tasks
    ensures PublishedRevision(w.tasks[task]) <= LatestRevision(w.tasks[task])
  {
    hide TrueLog, TrueStreams, TrueSent, TrueClients;
    assert Sound(task, w.tasks[task]);
  }
}
