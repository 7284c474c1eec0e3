/**
 A client's copy of one subscribed scope, and what it does with each message from the App
 Server (stateIngestion.ts).  The transport may lose, repeat and reorder messages.
 */
module Replicas {
  import opened Prelude
  import opened TaskCopies
  import opened Routing
  import opened StateStreams

  datatype Message = Reply(reply: Subscribed) | Live(event: Event)

  /** The reply that installed the copy, what it held then, where it is, what was ingested since and
      what it holds now; only a Task's contents are modelled. */
  datatype Replica = Replica(
    reply: Subscribed,
    origin: Option<TaskView>,
    cursor: nat,
    applied: seq<Payload>,
    view: Option<TaskView>)

  datatype Ingested =
    | Applied(replica: Replica)
    | Ignored
    | Resync(reason: string)

  /** A client's live copies, and the Task copies it kept after leaving a Task. */
  datatype Client = Client(replicas: map<Scope, Replica>, retained: map<TaskId, TaskView>)

  // ---------------------------------------------------------------- contents

  function UpdateView(view: TaskView, payload: Payload): Update {
    var task := view.summary.taskId;
    match payload
    case SnapshotReplaced(active, _) =>
      if active.Some? && active.value.summary.taskId == task then Changed(active.value) else Unchanged
    case TaskChanged(changed, revision, changes) => IngestChange(view, changed, revision, changes)
    case TaskHistorySyncUpdated(synced, historySync) =>
      if synced == task && historySync.generation >= view.historySync.generation
      then Changed(view.(historySync := historySync)) else Unchanged
    case TaskRequestsUpdated(about, requests) =>
      if about == task then Changed(view.(pendingRequests := requests)) else Unchanged
    case RequestUpdated(request) =>
      if request.scope == TaskRequest(task)
      then Changed(view.(pendingRequests := UpsertRequest(view.pendingRequests, request))) else Unchanged
    case _ => Unchanged
  }

  /** The contents of a copy that ingests the payloads in order; `None` once it must resync. */
  function Follow(view: TaskView, payloads: seq<Payload>): Option<TaskView>
    decreases |payloads|
  {
    if payloads == [] then Some(view)
    else
      var before := Follow(view, payloads[..|payloads| - 1]);
      if before.None? then None
      else
        match UpdateView(before.value, payloads[|payloads| - 1])
        case Unchanged => before
        case Changed(next) => Some(next)
        case ResyncRequired(_) => None
  }

  lemma FollowStep(view: TaskView, payloads: seq<Payload>, last: Payload)
    requires Follow(view, payloads).Some? && !UpdateView(Follow(view, payloads).value, last).ResyncRequired?
    ensures Follow(view, payloads + [last]).Some?
    ensures var r := UpdateView(Follow(view, payloads).value, last);
            Follow(view, payloads + [last]).value == if r.Changed? then r.view else Follow(view, payloads).value
  {
    hide UpdateView;
    assert (payloads + [last])[..|payloads|] == payloads;
  }

  function Advanced(replica: Replica, event: Event, view: Option<TaskView>): Replica {
    replica.(cursor := event.cursor, applied := replica.applied + [event.payload], view := view)
  }

  /** Ingests one event of the replica's own scope.  `contentOk` is the verdict of the contents
      not modelled here. */
  function IngestEvent(replica: Replica, event: Event, client: ClientId, root: string, contentOk: bool): Ingested {
    var decision := ClientMatch(event.subscription, event.scope, event.payload, client, root);
    if decision.StreamScopeMismatch? then Resync("streamScopeMismatch")
    else if decision.SubscriptionMismatch? then Ignored
    else if event.cursor == replica.cursor then Ignored
    else if event.previousCursor != replica.cursor then Resync("cursorGap")
    else if replica.view.None? then
      if contentOk then Applied(Advanced(replica, event, None)) else Resync("content")
    else
      match UpdateView(replica.view.value, event.payload)
      case Unchanged => Applied(Advanced(replica, event, replica.view))
      case Changed(view) => Applied(Advanced(replica, event, Some(view)))
      case ResyncRequired(_) => Resync("content")
  }

  /** The copy a subscribe reply installs; `None` when a resume does not fit what was kept. */
  function Install(reply: Subscribed, retained: map<TaskId, TaskView>): Option<Replica> {
    match reply.snapshot
    case OtherBaseline(_) => Some(Replica(reply, None, reply.cursor, [], None))
    case TaskBaseline(view) => Some(Replica(reply, Some(view), reply.cursor, [], Some(view)))
    case TaskResume(resume) =>
      if resume.task !in retained then None
      else
        var view := ResumeView(retained[resume.task], resume);
        if view.None? then None else Some(Replica(reply, view, reply.cursor, [], view))
  }

  /** A copy that can no longer follow its stream is given up; the client subscribes again. */
  function Receive(state: Client, message: Message, client: ClientId, root: string, contentOk: bool): Client {
    match message
    case Reply(reply) =>
      var installed := Install(reply, state.retained);
      if installed.None? then state.(replicas := state.replicas - {reply.scope})
      else state.(replicas := state.replicas[reply.scope := installed.value])
    case Live(event) =>
      if event.subscription !in state.replicas then state
      else
        match IngestEvent(state.replicas[event.subscription], event, client, root, contentOk)
        case Ignored => state
        case Applied(replica) => state.(replicas := state.replicas[event.subscription := replica])
        case Resync(_) => state.(replicas := state.replicas - {event.subscription})
  }

  /** Leaving a Task keeps its copy for a later resume. */
  function Leave(state: Client, task: TaskId): Client {
    if Task(task) in state.replicas && state.replicas[Task(task)].view.Some?
    then Client(state.replicas - {Task(task)}, state.retained[task := state.replicas[Task(task)].view.value])
    else state
  }
}
