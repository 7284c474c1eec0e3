/**
 The whole synchronisation protocol as a step machine: the store commits Task changes, one publisher
 sends them in order through the state stream, clients subscribe, leave, resume and receive over a
 transport that may lose, repeat and reorder.  A world holds the store's Tasks, the stream, every
 message ever sent and every client's copies; a run is any sequence of steps, and what is proved here
 holds in every world of every run.
 */
module SyncRuns {
  import opened Prelude
  import opened TaskCopies
  import opened ChangeLogs
  import opened Routing
  import opened StateStreams
  import opened Replicas
  import opened StateSync

  /** Every payload published on each scope; its length is the scope's cursor. */
  type Streams = map<Scope, seq<Payload>>

  datatype World = World(
    root: string,
    tasks: map<TaskId, Truth>,
    log: Tasks,
    stamps: nat,
    taskBound: nat,
    totalBound: nat,
    subscriptions: seq<Subscription>,
    cursors: Cursors,
    streams: Streams,
    sent: set<(ClientId, Message)>,
    clients: map<ClientId, Client>)

  function StreamOf(streams: Streams, scope: Scope): seq<Payload> {
    if scope in streams then streams[scope] else []
  }

  datatype Step =
    | Create(task: TaskId, view: TaskView)
    | Commit(task: TaskId, changes: TaskChanges)
    | PublishChange(task: TaskId, bytes: nat, connections: map<ClientId, ConnectionId>, out: seq<EventDelivery>)
    | PublishOther(event: EventScope, payload: Payload, connections: map<ClientId, ConnectionId>, out: seq<EventDelivery>)
    | Subscribe(client: ClientId, scope: Scope, known: Option<nat>, basis: Fetched<Option<Basis>>, baseline: Fetched<Snapshot>)
    | Unsubscribe(client: ClientId, scope: Scope)
    | DropClient(client: ClientId)
    | Deliver(client: ClientId, message: Message, contentOk: bool)
    | LeaveTask(client: ClientId, task: TaskId)

  /** The change the publisher sends next for a Task. */
  function NextChange(task: TaskId, truth: Truth): Payload
    requires truth.published < |truth.changes|
  {
    TaskChanged(task, PublishedRevision(truth) + 1, truth.changes[truth.published])
  }

  /** The stream's part of a publication, as PublishCommitted performs it. */
  ghost predicate Broadcast(w: World, w': World, event: EventScope, payload: Payload,
                            connections: map<ClientId, ConnectionId>, out: seq<EventDelivery>)
  {
    var matching := Matching(w.subscriptions, event, payload, w.root);
    && CursorsAdvance(w.cursors, w'.cursors, matching)
    && DeliversExactly(out, matching, connections, w.cursors, event, payload)
    && (forall s :: StreamOf(w'.streams, s) == StreamOf(w.streams, s) + if Touches(matching, s) then [payload] else [])
    && w'.sent == w.sent + (set d | d in out :: (d.client, Live(d.event)))
  }

  /** What a snapshot provider may answer: the committed Task, with any unrevisioned state. */
  predicate Provided(tasks: map<TaskId, Truth>, scope: Scope, basis: Fetched<Option<Basis>>, baseline: Fetched<Snapshot>) {
    if scope.Task? then
      && scope.task in tasks && Sound(scope.task, tasks[scope.task])
      && (basis.Ok? && basis.value.Some? ==> basis.value.value.revision == LatestRevision(tasks[scope.task]))
      && (baseline.Ok? ==> baseline.value.TaskBaseline?
                           && baseline.value.view.revision == LatestRevision(tasks[scope.task])
                           && Faithful(scope.task, tasks[scope.task], baseline.value.view))
    else baseline.Ok? ==> baseline.value.OtherBaseline?
  }

  /** A snapshot replacement carries the Task as committed. */
  predicate TruePublication(tasks: map<TaskId, Truth>, payload: Payload) {
    && !payload.TaskChanged?
    && (payload.SnapshotReplaced? && payload.activeTask.Some? ==>
          var view := payload.activeTask.value;
          view.summary.taskId in tasks && Sound(view.summary.taskId, tasks[view.summary.taskId])
          && view.revision == LatestRevision(tasks[view.summary.taskId])
          && Faithful(view.summary.taskId, tasks[view.summary.taskId], view))
  }

  ghost predicate Takes(w: World, w': World, step: Step) {
    match step
    case Create(task, view) =>
      task !in w.tasks && view.summary.taskId == task && w' == w.(tasks := w.tasks[task := Truth(view, [], 0)])
    case Commit(task, changes) =>
      && task in w.tasks && KeepsIdentity(changes, task)
      && Replay(w.tasks[task].initial, w.tasks[task].changes + [changes]).Some?
      && w' == w.(tasks := w.tasks[task := w.tasks[task].(changes := w.tasks[task].changes + [changes])])
    case PublishChange(task, bytes, connections, out) =>
      && task in w.tasks && w.tasks[task].published < |w.tasks[task].changes|
      && var payload := NextChange(task, w.tasks[task]);
         && Recorded(w.log, w'.log, task, Entry(payload.revision, payload.changes, bytes), w.stamps + 1, w.taskBound, w.totalBound)
         && Broadcast(w, w', TaskScope(w.root, task), payload, connections, out)
         && w' == w.(tasks := w.tasks[task := w.tasks[task].(published := w.tasks[task].published + 1)],
                     log := w'.log, stamps := w.stamps + 1, cursors := w'.cursors, streams := w'.streams, sent := w'.sent)
    case PublishOther(event, payload, connections, out) =>
      && TruePublication(w.tasks, payload)
      && Broadcast(w, w', event, payload, connections, out)
      && w' == w.(cursors := w'.cursors, streams := w'.streams, sent := w'.sent)
    case Subscribe(client, scope, known, basis, baseline) =>
      && Provided(w.tasks, scope, basis, baseline)
      && var snapshot := SnapshotFor(w.log, scope, known, basis, baseline);
         if snapshot.Err? then w' == w
         else w' == w.(subscriptions := Upserted(w.subscriptions, Subscription(client, scope)),
                       sent := w.sent + {(client, Reply(Subscribed(CursorOf(w.cursors, scope), scope, snapshot.value)))})
    case Unsubscribe(client, scope) => w' == w.(subscriptions := Without(w.subscriptions, client, scope))
    case DropClient(client) => w' == w.(subscriptions := WithoutClient(w.subscriptions, client))
    case Deliver(client, message, contentOk) =>
      && (client, message) in w.sent
      && w' == w.(clients := w.clients[client := Receive(ClientState(w, client), message, client, w.root, contentOk)])
    case LeaveTask(client, task) =>
      w' == w.(clients := w.clients[client := Leave(ClientState(w, client), task)])
  }

  function ClientState(w: World, client: ClientId): Client {
    if client in w.clients then w.clients[client] else Client(map[], map[])
  }

  ghost predicate Starts(w: World) {
    && w.tasks == map[] && w.log == map[] && w.subscriptions == [] && w.cursors == map[]
    && w.streams == map[] && w.sent == {} && w.clients == map[]
  }

  /** A run of the protocol: any steps, in any order. */
  ghost predicate IsRunOf(run: seq<World>, steps: seq<Step>) {
    && |run| == |steps| + 1 && Starts(run[0])
    && forall i :: 0 <= i < |steps| ==> Takes(run[i], run[i + 1], steps[i])
  }

  // ---------------------------------------------------------------- what holds of every world

  predicate TruePayload(tasks: map<TaskId, Truth>, payload: Payload) {
    match payload
    case TaskChanged(task, revision, changes) =>
      && task in tasks && Sound(task, tasks[task])
      && tasks[task].initial.revision < revision <= PublishedRevision(tasks[task])
      && changes == tasks[task].changes[revision - tasks[task].initial.revision - 1]
    case SnapshotReplaced(active, _) =>
      active.Some? ==> TrueView(tasks, active.value.summary.taskId, active.value)
    case _ => true
  }

  predicate TrueView(tasks: map<TaskId, Truth>, task: TaskId, view: TaskView) {
    task in tasks && Sound(task, tasks[task]) && Faithful(task, tasks[task], view)
  }

  predicate TrueSnapshot(tasks: map<TaskId, Truth>, scope: Scope, snapshot: Snapshot) {
    match snapshot
    case TaskBaseline(view) => scope.Task? && TrueView(tasks, scope.task, view)
    case TaskResume(resume) =>
      scope == Task(resume.task) && resume.task in tasks && TrueMissed(tasks[resume.task], resume.knownRevision, resume.missed)
    case OtherBaseline(_) => !scope.Task?
  }

  predicate TrueMessage(tasks: map<TaskId, Truth>, streams: Streams, message: Message) {
    match message
    case Reply(reply) =>
      reply.cursor <= |StreamOf(streams, reply.scope)| && TrueSnapshot(tasks, reply.scope, reply.snapshot)
    case Live(event) =>
      && event.cursor == event.previousCursor + 1 <= |StreamOf(streams, event.subscription)|
      && event.payload == StreamOf(streams, event.subscription)[event.previousCursor]
  }

  /** What the reply that installed a Task copy promised of its contents. */
  predicate Founded(tasks: map<TaskId, Truth>, task: TaskId, snapshot: Snapshot, origin: TaskView) {
    && TrueView(tasks, task, origin)
    && match snapshot
       case TaskBaseline(view) => origin == view
       case TaskResume(resume) =>
         origin.revision == resume.knownRevision + |resume.missed| && TransientsOf(origin) == resume.current
       case OtherBaseline(_) => false
  }

  /** A Task copy's contents are what its reply gave it, moved along by everything it ingested. */
  predicate TrueContents(tasks: map<TaskId, Truth>, task: TaskId, replica: Replica) {
    && replica.view.Some? && replica.origin.Some?
    && TrueView(tasks, task, replica.view.value)
    && Founded(tasks, task, replica.reply.snapshot, replica.origin.value)
    && Follow(replica.origin.value, replica.applied) == replica.view
    && Covers(task, replica.applied, replica.view.value)
  }

  /** The copy is at least as recent as every change of its Task it ingested. */
  predicate Covers(task: TaskId, payloads: seq<Payload>, view: TaskView) {
    forall n :: 0 <= n < |payloads| ==> CoversOne(task, payloads[n], view)
  }

  predicate CoversOne(task: TaskId, payload: Payload, view: TaskView) {
    payload.TaskChanged? && payload.changedTask == task ==> payload.revision <= view.revision
  }

  /** The copy is the server's state at its cursor: it ingested exactly the payloads published on
      its scope since its reply, and a Task copy holds what they make of the reply's Task. */
  predicate TrueReplica(tasks: map<TaskId, Truth>, streams: Streams, scope: Scope, replica: Replica) {
    && replica.reply.scope == scope
    && replica.reply.cursor <= replica.cursor <= |StreamOf(streams, scope)|
    && replica.applied == StreamOf(streams, scope)[replica.reply.cursor..replica.cursor]
    && (if scope.Task? then TrueContents(tasks, scope.task, replica) else replica.view.None?)
  }

  predicate TrueClient(tasks: map<TaskId, Truth>, streams: Streams, client: Client) {
    && (forall s :: s in client.replicas ==> TrueReplica(tasks, streams, s, client.replicas[s]))
    && (forall t :: t in client.retained ==> TrueView(tasks, t, client.retained[t]))
  }

  /** The retained run is the tail of what was published. */
  predicate LogMatches(truth: Truth, t: TaskEntries) {
    && IsRun(t) && t.lastPublished == PublishedRevision(truth)
    && |t.entries| <= truth.published <= |truth.changes|
    && forall i :: 0 <= i < |t.entries| ==> t.entries[i].changes == truth.changes[truth.published - |t.entries| + i]
  }

  predicate Truths(tasks: map<TaskId, Truth>) {
    forall t :: t in tasks ==> Sound(t, tasks[t])
  }

  predicate TrueLog(tasks: map<TaskId, Truth>, log: Tasks) {
    forall t :: t in log ==> t in tasks && LogMatches(tasks[t], log[t])
  }

  ghost predicate TrueStreams(tasks: map<TaskId, Truth>, streams: Streams, cursors: Cursors) {
    && (forall s :: |StreamOf(streams, s)| == CursorOf(cursors, s))
    && (forall s, i :: 0 <= i < |StreamOf(streams, s)| ==> TruePayload(tasks, StreamOf(streams, s)[i]))
  }

  predicate TrueSent(tasks: map<TaskId, Truth>, streams: Streams, sent: set<(ClientId, Message)>) {
    forall m :: m in sent ==> TrueMessage(tasks, streams, m.1)
  }

  predicate TrueClients(tasks: map<TaskId, Truth>, streams: Streams, clients: map<ClientId, Client>) {
    forall c :: c in clients ==> TrueClient(tasks, streams, clients[c])
  }

  /** A snapshot of a Task is published no older than the changes published before it. */
  predicate SnapshotsFollow(stream: seq<Payload>) {
    forall m, n :: 0 <= m < n < |stream| ==> InStep(stream[m], stream[n])
  }

  predicate InStep(a: Payload, b: Payload) {
    a.TaskChanged? && b.SnapshotReplaced? && b.activeTask.Some? && b.activeTask.value.summary.taskId == a.changedTask ==>
      a.revision <= b.activeTask.value.revision
  }

  ghost predicate OrderedStreams(streams: Streams) {
    forall s :: SnapshotsFollow(StreamOf(streams, s))
  }

  ghost predicate Inv(w: World) {
    && Truths(w.tasks)
    && OrderedStreams(w.streams)
    && TrueLog(w.tasks, w.log)
    && TrueStreams(w.tasks, w.streams, w.cursors)
    && TrueSent(w.tasks, w.streams, w.sent)
    && TrueClients(w.tasks, w.streams, w.clients)
  }

  // ---------------------------------------------------------------- the past never changes

  predicate Grew(a: Truth, b: Truth) {
    a.initial == b.initial && a.changes <= b.changes && a.published <= b.published
  }

  predicate TasksGrew(a: map<TaskId, Truth>, b: map<TaskId, Truth>) {
    forall t :: t in a ==> t in b && Grew(a[t], b[t])
  }

  ghost predicate StreamsGrew(a: Streams, b: Streams) {
    forall s :: StreamOf(a, s) <= StreamOf(b, s)
  }

  lemma FaithfulGrows(task: TaskId, a: Truth, b: Truth, view: TaskView)
    requires Sound(task, a) && Sound(task, b) && Grew(a, b) && Faithful(task, a, view)
    ensures Faithful(task, b, view)
  {
    hide Replay, Durable;
    var n := view.revision - a.initial.revision;
    assert a.changes[..n] == b.changes[..n];
  }

  lemma ViewGrows(a: map<TaskId, Truth>, b: map<TaskId, Truth>, task: TaskId, view: TaskView)
    requires TasksGrew(a, b) && Truths(b) && TrueView(a, task, view)
    ensures TrueView(b, task, view)
  {
    FaithfulGrows(task, a[task], b[task], view);
  }

  lemma PayloadGrows(a: map<TaskId, Truth>, b: map<TaskId, Truth>, payload: Payload)
    requires TasksGrew(a, b) && Truths(b) && TruePayload(a, payload)
    ensures TruePayload(b, payload)
  {
    if payload.SnapshotReplaced? && payload.activeTask.Some? {
      ViewGrows(a, b, payload.activeTask.value.summary.taskId, payload.activeTask.value);
    }
  }

  lemma MessageGrows(a: map<TaskId, Truth>, b: map<TaskId, Truth>, p: Streams, q: Streams, message: Message)
    requires TasksGrew(a, b) && Truths(b) && StreamsGrew(p, q) && TrueMessage(a, p, message)
    ensures TrueMessage(b, q, message)
  {
    if message.Reply? {
      assert StreamOf(p, message.reply.scope) <= StreamOf(q, message.reply.scope);
      if message.reply.snapshot.TaskBaseline? {
        ViewGrows(a, b, message.reply.scope.task, message.reply.snapshot.view);
      }
    } else {
      assert StreamOf(p, message.event.subscription) <= StreamOf(q, message.event.subscription);
    }
  }

  lemma ReplicaGrows(a: map<TaskId, Truth>, b: map<TaskId, Truth>, p: Streams, q: Streams, scope: Scope, replica: Replica)
    requires TasksGrew(a, b) && Truths(b) && StreamsGrew(p, q) && TrueReplica(a, p, scope, replica)
    ensures TrueReplica(b, q, scope, replica)
  {
    hide TasksGrew, Truths, TrueContents;
    assert StreamOf(p, scope) <= StreamOf(q, scope);
    var base := replica.reply.cursor;
    assert StreamOf(p, scope)[base..replica.cursor] == StreamOf(q, scope)[base..replica.cursor];
    if scope.Task? {
      ContentsGrow(a, b, scope.task, replica);
    }
  }

  lemma ContentsGrow(a: map<TaskId, Truth>, b: map<TaskId, Truth>, task: TaskId, replica: Replica)
    requires TasksGrew(a, b) && Truths(b) && TrueContents(a, task, replica)
    ensures TrueContents(b, task, replica)
  {
    hide TasksGrew, Truths, TrueView, Follow, Covers, TransientsOf;
    ViewGrows(a, b, task, replica.view.value);
    ViewGrows(a, b, task, replica.origin.value);
  }

  lemma EverythingSentGrows(a: map<TaskId, Truth>, b: map<TaskId, Truth>, p: Streams, q: Streams, sent: set<(ClientId, Message)>)
    requires TasksGrew(a, b) && Truths(b) && StreamsGrew(p, q) && TrueSent(a, p, sent)
    ensures TrueSent(b, q, sent)
  {
    forall m | m in sent
      ensures TrueMessage(b, q, m.1)
    {
      MessageGrows(a, b, p, q, m.1);
    }
  }

  lemma ClientsGrow(a: map<TaskId, Truth>, b: map<TaskId, Truth>, p: Streams, q: Streams, clients: map<ClientId, Client>)
    requires TasksGrew(a, b) && Truths(b) && StreamsGrew(p, q) && TrueClients(a, p, clients)
    ensures TrueClients(b, q, clients)
  {
    forall c | c in clients
      ensures TrueClient(b, q, clients[c])
    {
      forall s | s in clients[c].replicas
        ensures TrueReplica(b, q, s, clients[c].replicas[s])
      {
        ReplicaGrows(a, b, p, q, s, clients[c].replicas[s]);
      }
      forall t | t in clients[c].retained
        ensures TrueView(b, t, clients[c].retained[t])
      {
        ViewGrows(a, b, t, clients[c].retained[t]);
      }
    }
  }

  lemma StreamsKept(a: map<TaskId, Truth>, b: map<TaskId, Truth>, streams: Streams, cursors: Cursors)
    requires TasksGrew(a, b) && Truths(b) && TrueStreams(a, streams, cursors)
    ensures TrueStreams(b, streams, cursors)
  {
    forall s, i | 0 <= i < |StreamOf(streams, s)|
      ensures TruePayload(b, StreamOf(streams, s)[i])
    {
      PayloadGrows(a, b, StreamOf(streams, s)[i]);
    }
  }

  // ---------------------------------------------------------------- every step keeps it

  lemma TasksOnlyStep(w: World, w': World)
    requires Inv(w) && Truths(w'.tasks) && TasksGrew(w.tasks, w'.tasks)
    requires w' == w.(tasks := w'.tasks)
    requires forall t :: t in w.log ==> w'.tasks[t].published == w.tasks[t].published
    ensures Inv(w')
  {
    hide Truths, TrueSent, TrueClients, TrueStreams, StreamsGrew;
    StreamsSame(w.streams);
    StreamsKept(w.tasks, w'.tasks, w.streams, w.cursors);
    EverythingSentGrows(w.tasks, w'.tasks, w.streams, w.streams, w.sent);
    ClientsGrow(w.tasks, w'.tasks, w.streams, w.streams, w.clients);
    forall t | t in w.log
      ensures t in w'.tasks && LogMatches(w'.tasks[t], w.log[t])
    {
      assert w.tasks[t].changes <= w'.tasks[t].changes;
    }
  }

  lemma StreamsSame(streams: Streams)
    ensures StreamsGrew(streams, streams)
  {
  }

  lemma CreateKeeps(w: World, w': World, task: TaskId, view: TaskView)
    requires Inv(w) && Takes(w, w', Create(task, view))
    ensures Inv(w')
  {
    assert Sound(task, Truth(view, [], 0));
    hide TrueLog, TrueStreams, TrueSent, TrueClients, Sound;
    TasksOnlyStep(w, w');
  }

  lemma CommitKeeps(w: World, w': World, task: TaskId, changes: TaskChanges)
    requires Inv(w) && Takes(w, w', Commit(task, changes))
    ensures Inv(w')
  {
    assert Sound(task, w'.tasks[task]) by {
      hide TrueLog, TrueStreams, TrueSent, TrueClients, Replay;
      assert Sound(task, w.tasks[task]);
    }
    hide TrueStreams, TrueSent, TrueClients, Sound, Replay, LogMatches;
    TasksOnlyStep(w, w');
  }

  lemma BroadcastGrows(w: World, w': World, tasks: map<TaskId, Truth>, event: EventScope, payload: Payload,
                       connections: map<ClientId, ConnectionId>, out: seq<EventDelivery>)
    requires TrueStreams(w.tasks, w.streams, w.cursors) && TasksGrew(w.tasks, tasks) && Truths(tasks)
    requires TruePayload(tasks, payload) && Broadcast(w, w', event, payload, connections, out)
    ensures StreamsGrew(w.streams, w'.streams) && TrueStreams(tasks, w'.streams, w'.cursors)
  {
    forall s, i | 0 <= i < |StreamOf(w'.streams, s)|
      ensures TruePayload(tasks, StreamOf(w'.streams, s)[i])
    {
      if i < |StreamOf(w.streams, s)| {
        PayloadGrows(w.tasks, tasks, StreamOf(w.streams, s)[i]);
      }
    }
  }

  /** The payload, if a Task's snapshot, covers everything published. */
  predicate CoversPublished(tasks: map<TaskId, Truth>, payload: Payload) {
    payload.SnapshotReplaced? && payload.activeTask.Some? ==>
      var task := payload.activeTask.value.summary.taskId;
      task in tasks && PublishedRevision(tasks[task]) <= payload.activeTask.value.revision
  }

  lemma BroadcastKeepsOrder(w: World, w': World, event: EventScope, payload: Payload,
                            connections: map<ClientId, ConnectionId>, out: seq<EventDelivery>)
    requires TrueStreams(w.tasks, w.streams, w.cursors) && OrderedStreams(w.streams)
    requires CoversPublished(w.tasks, payload) && Broadcast(w, w', event, payload, connections, out)
    ensures OrderedStreams(w'.streams)
  {
    hide CursorsAdvance, DeliversExactly, Matching, Touches;
    forall s
      ensures SnapshotsFollow(StreamOf(w'.streams, s))
    {
      var before, after := StreamOf(w.streams, s), StreamOf(w'.streams, s);
      assert SnapshotsFollow(before);
      if after != before {
        assert after == before + [payload];
        OneMoreFollows(w.tasks, before, payload);
      }
    }
  }

  lemma OneMoreFollows(tasks: map<TaskId, Truth>, stream: seq<Payload>, payload: Payload)
    requires SnapshotsFollow(stream) && CoversPublished(tasks, payload)
    requires forall n :: 0 <= n < |stream| ==> TruePayload(tasks, stream[n])
    ensures SnapshotsFollow(stream + [payload])
  {
    hide Sound, TrueView;
    var all := stream + [payload];
    forall m, n | 0 <= m < n < |all|
      ensures InStep(all[m], all[n])
    {
      assert TruePayload(tasks, stream[m]);
    }
  }

  lemma BroadcastSends(w: World, w': World, tasks: map<TaskId, Truth>, event: EventScope, payload: Payload,
                       connections: map<ClientId, ConnectionId>, out: seq<EventDelivery>)
    requires TrueStreams(w.tasks, w.streams, w.cursors) && TrueSent(tasks, w'.streams, w.sent)
    requires Broadcast(w, w', event, payload, connections, out)
    ensures TrueSent(tasks, w'.streams, w'.sent)
  {
    var matching := Matching(w.subscriptions, event, payload, w.root);
    forall m | m in w'.sent
      ensures TrueMessage(tasks, w'.streams, m.1)
    {
      if m !in w.sent {
        var d :| d in out && m == (d.client, Live(d.event));
        assert Subscription(d.client, d.event.subscription) in matching;
        assert Touches(matching, d.event.subscription);
        assert |StreamOf(w.streams, d.event.subscription)| == CursorOf(w.cursors, d.event.subscription);
      }
    }
  }

  lemma LogRecordsPublished(log: Tasks, log': Tasks, task: TaskId, truth: Truth, tasks: map<TaskId, Truth>, bytes: nat,
                            stamp: nat, taskBound: nat, totalBound: nat)
    requires task in tasks && tasks[task] == truth && truth.published < |truth.changes|
    requires TrueLog(tasks, log)
    requires Recorded(log, log', task, Entry(PublishedRevision(truth) + 1, truth.changes[truth.published], bytes),
                      stamp, taskBound, totalBound)
    ensures TrueLog(tasks[task := truth.(published := truth.published + 1)], log')
  {
    var e := Entry(PublishedRevision(truth) + 1, truth.changes[truth.published], bytes);
    var next := truth.(published := truth.published + 1);
    if !e.changes.removed {
      var staged := Staged(log, task, e, stamp, taskBound);
      StagedMatches(log, task, truth, e, stamp, taskBound);
      RecordingDropsEntries(log, log', task, e, stamp, taskBound, totalBound);
      hide Recorded, Staged;
      forall t | t in log'
        ensures t in tasks[task := next] && LogMatches(tasks[task := next][t], log'[t])
      {
        assert t in staged && (t != task ==> staged[t] == log[t]) by {
          StagedElsewhere(log, task, e, stamp, taskBound);
        }
        ShorterTailMatches(tasks[task := next][t], staged[t], log'[t]);
      }
    } else {
      hide LogMatches;
    }
  }

  lemma StagedElsewhere(log: Tasks, task: TaskId, e: Entry, stamp: nat, taskBound: nat)
    ensures var staged := Staged(log, task, e, stamp, taskBound);
            staged.Keys == log.Keys + {task} && forall t :: t in log && t != task ==> staged[t] == log[t]
  {
  }

  lemma RecordingDropsEntries(log: Tasks, log': Tasks, task: TaskId, e: Entry, stamp: nat, taskBound: nat, totalBound: nat)
    requires Recorded(log, log', task, e, stamp, taskBound, totalBound) && !e.changes.removed
    ensures var staged := Staged(log, task, e, stamp, taskBound);
            && log'.Keys == staged.Keys
            && forall t :: t in staged ==> log'[t].lastPublished == staged[t].lastPublished
                                           && IsSuffix(log'[t].entries, staged[t].entries)
  {
    var staged := Staged(log, task, e, stamp, taskBound);
    assert OnlyEntriesGo(staged, log', task);
    forall t | t in staged
      ensures IsSuffix(log'[t].entries, staged[t].entries)
    {
      assert t != task ==> log'[t] == staged[t] || Freed(staged, log', t);
    }
  }

  lemma ShorterTailMatches(truth: Truth, whole: TaskEntries, tail: TaskEntries)
    requires LogMatches(truth, whole)
    requires tail.lastPublished == whole.lastPublished && IsSuffix(tail.entries, whole.entries)
    ensures LogMatches(truth, tail)
  {
  }

  lemma ExtendedMatches(log: Tasks, task: TaskId, truth: Truth, e: Entry)
    requires truth.published < |truth.changes|
    requires e.revision == PublishedRevision(truth) + 1 && e.changes == truth.changes[truth.published]
    requires task in log ==> LogMatches(truth, log[task])
    ensures LogMatches(truth.(published := truth.published + 1),
                       TaskEntries(Max(LastPublished(log, task), e.revision), Extended(log, task, e), 0, 0))
  {
    var run := Extended(log, task, e);
    assert forall i :: 0 <= i < |run| ==> run[i].changes == truth.changes[truth.published + 1 - |run| + i];
  }

  lemma StagedMatches(log: Tasks, task: TaskId, truth: Truth, e: Entry, stamp: nat, taskBound: nat)
    requires truth.published < |truth.changes|
    requires e.revision == PublishedRevision(truth) + 1 && e.changes == truth.changes[truth.published]
    requires task in log ==> LogMatches(truth, log[task])
    ensures LogMatches(truth.(published := truth.published + 1), Staged(log, task, e, stamp, taskBound)[task])
  {
    hide Trimmed, Extended, LogMatches, SizeOf;
    var run := Extended(log, task, e);
    ExtendedMatches(log, task, truth, e);
    TrimmedIsLongestSuffix(run, taskBound);
    ShorterTailMatches(truth.(published := truth.published + 1),
                       TaskEntries(Max(LastPublished(log, task), e.revision), run, 0, 0),
                       Staged(log, task, e, stamp, taskBound)[task]);
  }

  lemma PublishChangeKeeps(w: World, w': World, task: TaskId, bytes: nat, connections: map<ClientId, ConnectionId>,
                           out: seq<EventDelivery>)
    requires Inv(w) && Takes(w, w', PublishChange(task, bytes, connections, out))
    ensures Inv(w')
  {
    hide Truths, TrueSent, TrueClients, TrueStreams, StreamsGrew, Broadcast, Recorded, TrueLog, TruePayload, TasksGrew,
         OrderedStreams;
    var truth := w.tasks[task];
    var payload := NextChange(task, truth);
    NextChangeIsTrue(w.tasks, task);
    BroadcastKeepsOrder(w, w', TaskScope(w.root, task), payload, connections, out);
    BroadcastGrows(w, w', w'.tasks, TaskScope(w.root, task), payload, connections, out);
    EverythingSentGrows(w.tasks, w'.tasks, w.streams, w'.streams, w.sent);
    BroadcastSends(w, w', w'.tasks, TaskScope(w.root, task), payload, connections, out);
    ClientsGrow(w.tasks, w'.tasks, w.streams, w'.streams, w.clients);
    LogRecordsPublished(w.log, w'.log, task, truth, w.tasks, bytes, w.stamps + 1, w.taskBound, w.totalBound);
  }

  lemma NextChangeIsTrue(tasks: map<TaskId, Truth>, task: TaskId)
    requires Truths(tasks) && task in tasks && tasks[task].published < |tasks[task].changes|
    ensures var next := tasks[task := tasks[task].(published := tasks[task].published + 1)];
            Truths(next) && TasksGrew(tasks, next) && TruePayload(next, NextChange(task, tasks[task]))
  {
  }

  lemma PublishOtherKeeps(w: World, w': World, event: EventScope, payload: Payload, connections: map<ClientId, ConnectionId>,
                          out: seq<EventDelivery>)
    requires Inv(w) && Takes(w, w', PublishOther(event, payload, connections, out))
    ensures Inv(w')
  {
    assert TruePayload(w.tasks, payload) && TasksGrew(w.tasks, w.tasks) && CoversPublished(w.tasks, payload);
    BroadcastKeepsOrder(w, w', event, payload, connections, out);
    hide OrderedStreams, CoversPublished;
    hide Truths, TrueSent, TrueClients, TrueStreams, StreamsGrew, Broadcast, TrueLog, TruePayload, TasksGrew;
    BroadcastGrows(w, w', w.tasks, event, payload, connections, out);
    EverythingSentGrows(w.tasks, w.tasks, w.streams, w'.streams, w.sent);
    BroadcastSends(w, w', w.tasks, event, payload, connections, out);
    ClientsGrow(w.tasks, w.tasks, w.streams, w'.streams, w.clients);
  }

  lemma MatchingIsRun(truth: Truth, t: TaskEntries)
    requires LogMatches(truth, t)
    ensures IsRun(t)
  {
  }

  /** Whatever the log still holds, a resume lists committed changes only, and misses none that
      were published. */
  lemma ResumeIsTrue(tasks: map<TaskId, Truth>, log: Tasks, task: TaskId, known: nat)
    requires task in tasks && Sound(task, tasks[task]) && TrueLog(tasks, log)
    requires Missed(log, task, known, LatestRevision(tasks[task])).Some?
    ensures var missed := Missed(log, task, known, LatestRevision(tasks[task])).value;
            && TrueMissed(tasks[task], known, missed)
            && known + |missed| >= PublishedRevision(tasks[task])
            && (missed != [] ==> known + |missed| == PublishedRevision(tasks[task]))
  {
    hide Replay, IsRun, LaterThan, KeepsIdentity;
    if known < LatestRevision(tasks[task]) && task in log {
      assert LogMatches(tasks[task], log[task]);
      MatchingIsRun(tasks[task], log[task]);
      SinceListsEveryLaterRevision(log, task, known);
    }
  }

  lemma SubscribeKeeps(w: World, w': World, client: ClientId, scope: Scope, known: Option<nat>,
                       basis: Fetched<Option<Basis>>, baseline: Fetched<Snapshot>)
    requires Inv(w) && Takes(w, w', Subscribe(client, scope, known, basis, baseline))
    ensures Inv(w')
  {
    hide TrueClients, TrueLog, TrueMissed, Faithful, Missed;
    var snapshot := SnapshotFor(w.log, scope, known, basis, baseline);
    if snapshot.Ok? {
      if snapshot.value.TaskResume? {
        ResumeIsTrue(w.tasks, w.log, scope.task, known.value);
      }
      assert TrueSnapshot(w.tasks, scope, snapshot.value);
    }
  }

  lemma UpdateStaysTrue(tasks: map<TaskId, Truth>, task: TaskId, view: TaskView, payload: Payload)
    requires TrueView(tasks, task, view) && TruePayload(tasks, payload)
    ensures var r := UpdateView(view, payload); r.Changed? ==> TrueView(tasks, task, r.view)
  {
    hide At;
    if payload.TaskChanged? && payload.changedTask == task {
      hide Faithful;
      IngestStaysFaithful(task, tasks[task], view, payload.revision);
    }
  }

  /** Ingesting the next payload keeps everything ingested before it covered, and covers it too. */
  lemma UpdateCovers(tasks: map<TaskId, Truth>, task: TaskId, stream: seq<Payload>, base: nat, view: TaskView, n: nat)
    requires base <= n < |stream| && SnapshotsFollow(stream) && Covers(task, stream[base..n], view) && TrueView(tasks, task, view)
    requires !UpdateView(view, stream[n]).ResyncRequired?
    ensures var r := UpdateView(view, stream[n]);
            Covers(task, stream[base..n + 1], if r.Changed? then r.view else view)
  {
    hide ApplyChanges, Faithful, UpsertRequest, Sound;
    IdentityIsKept(tasks, task, view);
    hide TrueView;
    var r := UpdateView(view, stream[n]);
    var next := if r.Changed? then r.view else view;
    var all := stream[base..n + 1];
    forall k | 0 <= k < |all|
      ensures CoversOne(task, all[k], next)
    {
      assert k < n - base ==> CoversOne(task, stream[base..n][k], view) && InStep(stream[base + k], stream[n]);
    }
  }

  lemma IdentityIsKept(tasks: map<TaskId, Truth>, task: TaskId, view: TaskView)
    requires TrueView(tasks, task, view)
    ensures view.summary.taskId == task
  {
  }

  lemma IngestStaysTrue(tasks: map<TaskId, Truth>, streams: Streams, cursors: Cursors, replica: Replica, event: Event,
                        client: ClientId, root: string, contentOk: bool)
    requires TrueStreams(tasks, streams, cursors) && OrderedStreams(streams)
    requires TrueReplica(tasks, streams, event.subscription, replica) && TrueMessage(tasks, streams, Live(event))
    ensures var r := IngestEvent(replica, event, client, root, contentOk);
            r.Applied? ==> TrueReplica(tasks, streams, event.subscription, r.replica)
  {
    var r := IngestEvent(replica, event, client, root, contentOk);
    hide UpdateView, TruePayload, TrueView, ClientMatch, Follow, Covers, SnapshotsFollow, Founded;
    if r.Applied? {
      var stream := StreamOf(streams, event.subscription);
      assert TruePayload(tasks, stream[event.previousCursor]);
      var base := replica.reply.cursor;
      assert stream[base..event.cursor] == stream[base..replica.cursor] + [event.payload];
      if event.subscription.Task? {
        UpdateStaysTrue(tasks, event.subscription.task, replica.view.value, event.payload);
        FollowStep(replica.origin.value, replica.applied, event.payload);
        assert SnapshotsFollow(stream);
        UpdateCovers(tasks, event.subscription.task, stream, base, replica.view.value, event.previousCursor);
      }
    }
  }

  lemma InstallIsTrue(tasks: map<TaskId, Truth>, streams: Streams, retained: map<TaskId, TaskView>, reply: Subscribed)
    requires Truths(tasks) && TrueMessage(tasks, streams, Reply(reply))
    requires forall t :: t in retained ==> TrueView(tasks, t, retained[t])
    ensures var r := Install(reply, retained); r.Some? ==> TrueReplica(tasks, streams, reply.scope, r.value)
  {
    if reply.snapshot.TaskResume? && reply.snapshot.resume.task in retained {
      var resume := reply.snapshot.resume;
      var copy := retained[resume.task];
      if copy.summary.taskId == resume.task && copy.revision == resume.knownRevision {
        ReplayMissedIsFaithful(resume.task, tasks[resume.task], copy, resume.missed);
        DurableIgnoresTransients(ReplayMissed(copy, resume.missed).value, resume.current);
      }
    }
  }

  lemma DeliverKeeps(w: World, w': World, client: ClientId, message: Message, contentOk: bool)
    requires Inv(w) && Takes(w, w', Deliver(client, message, contentOk))
    ensures Inv(w')
  {
    hide Receive, TrueClient, TrueStreams, TrueLog, TrueSent, TrueMessage, OrderedStreams;
    var state := ClientState(w, client);
    assert TrueClient(w.tasks, w.streams, state) by {
      NewClientIsTrue(w.tasks, w.streams);
    }
    SentIsTrue(w, client, message);
    ReceiveStaysTrue(w.tasks, w.streams, w.cursors, state, message, client, w.root, contentOk);
  }

  lemma NewClientIsTrue(tasks: map<TaskId, Truth>, streams: Streams)
    ensures TrueClient(tasks, streams, Client(map[], map[]))
  {
  }

  lemma SentIsTrue(w: World, client: ClientId, message: Message)
    requires TrueSent(w.tasks, w.streams, w.sent) && (client, message) in w.sent
    ensures TrueMessage(w.tasks, w.streams, message)
  {
    assert (client, message).1 == message;
  }

  lemma ReceiveStaysTrue(tasks: map<TaskId, Truth>, streams: Streams, cursors: Cursors, state: Client, message: Message,
                         client: ClientId, root: string, contentOk: bool)
    requires Truths(tasks) && TrueStreams(tasks, streams, cursors) && OrderedStreams(streams) && TrueClient(tasks, streams, state)
    requires TrueMessage(tasks, streams, message)
    ensures TrueClient(tasks, streams, Receive(state, message, client, root, contentOk))
  {
    hide Install, IngestEvent, TrueReplica, TrueView, TrueMessage, TrueStreams, OrderedStreams;
    if message.Reply? {
      InstallIsTrue(tasks, streams, state.retained, message.reply);
    } else if message.event.subscription in state.replicas {
      IngestStaysTrue(tasks, streams, cursors, state.replicas[message.event.subscription], message.event,
                      client, root, contentOk);
    }
  }

  lemma LeaveKeeps(w: World, w': World, client: ClientId, task: TaskId)
    requires Inv(w) && Takes(w, w', LeaveTask(client, task))
    ensures Inv(w')
  {
    hide TrueView, TrueStreams, TrueLog, TrueSent, OrderedStreams;
    assert TrueClient(w.tasks, w.streams, ClientState(w, client));
    assert TrueClient(w.tasks, w.streams, Leave(ClientState(w, client), task));
  }

  lemma StepKeeps(w: World, w': World, step: Step)
    requires Inv(w) && Takes(w, w', step)
    ensures Inv(w')
  {
    hide Inv;
    match step
    case Create(task, view) => CreateKeeps(w, w', task, view);
    case Commit(task, changes) => CommitKeeps(w, w', task, changes);
    case PublishChange(task, bytes, connections, out) => PublishChangeKeeps(w, w', task, bytes, connections, out);
    case PublishOther(event, payload, connections, out) => PublishOtherKeeps(w, w', event, payload, connections, out);
    case Subscribe(client, scope, known, basis, baseline) => SubscribeKeeps(w, w', client, scope, known, basis, baseline);
    case Unsubscribe(client, scope) => MembershipKeeps(w, w');
    case DropClient(client) => MembershipKeeps(w, w');
    case Deliver(client, message, contentOk) => DeliverKeeps(w, w', client, message, contentOk);
    case LeaveTask(client, task) => LeaveKeeps(w, w', client, task);
  }

  lemma MembershipKeeps(w: World, w': World)
    requires Inv(w) && w' == w.(subscriptions := w'.subscriptions)
    ensures Inv(w')
  {
  }

  lemma RunStep(run: seq<World>, steps: seq<Step>, k: nat)
    requires IsRunOf(run, steps) && k + 1 < |run|
    ensures |run| == |steps| + 1 && Takes(run[k], run[k + 1], steps[k])
  {
    hide Takes, Starts;
  }

  lemma StartIsTrue(run: seq<World>, steps: seq<Step>)
    requires IsRunOf(run, steps)
    ensures |run| > 0 && Inv(run[0])
  {
    hide Takes;
    EmptyIsTrue(run[0]);
  }

  lemma EmptyIsTrue(w: World)
    requires Starts(w)
    ensures Inv(w)
  {
  }

  /** In every world of every run, whatever was lost, repeated or reordered: each live copy ingested
      exactly the payloads published on its scope from its reply to its cursor; a Task copy's contents
      are what those make of what the reply gave it, cover every change among them, and are the
      committed Task at their revision; and every message still in flight is true. */
  lemma {:induction false} EveryWorldIsTrue(run: seq<World>, steps: seq<Step>, i: nat)
    requires IsRunOf(run, steps) && i < |run|
    ensures Inv(run[i])
    decreases i
  {
    hide Inv, Takes, Starts, IsRunOf;
    if i == 0 {
      StartIsTrue(run, steps);
    } else {
      EveryWorldIsTrue(run, steps, i - 1);
      RunStep(run, steps, i - 1);
      StepKeeps(run[i - 1], run[i], steps[i - 1]);
    }
  }
}
