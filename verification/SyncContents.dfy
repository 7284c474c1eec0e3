/**
 What a client reads in its copy, from what was committed and published: the messages and fields of a
 Task that is caught up, and the streams that carry them.
 */
module SyncContents {
  import opened Prelude
  import opened TaskCopies
  import opened TaskContents
  import opened ChangeLogs
  import opened Routing
  import opened StateStreams
  import opened Replicas
  import opened StateSync
  import opened SyncRuns
  import opened SyncTheorems

  // ---------------------------------------------------------------- a caught-up copy

  /** A copy that is caught up holds what the committed changes say, field by field and message by
      message; only state without a revision may differ. */
  lemma CaughtUpCopyIsItsChanges(run: seq<World>, steps: seq<Step>, i: nat, j: nat, client: ClientId, task: TaskId, replica: Replica)
    requires Holds(run, steps, i, j, client, task, replica)
    requires Follows(run, steps, i + 1, j, Subscription(client, Task(task)))
    requires replica.cursor == |StreamOf(run[j].streams, Task(task))|
    requires task in run[j].tasks && run[j].tasks[task].published == |run[j].tasks[task].changes|
    ensures replica.view.Some?
    ensures exists made :: IsMadeBy(run[j].tasks[task].initial, run[j].tasks[task].changes, made)
                           && Durable(replica.view.value) == Durable(made)
  {
    hide Durable, StreamOf, IsMadeBy, Replay, IsRunOf;
    var truth := run[j].tasks[task];
    CaughtUpCopyIsCommitted(run, steps, i, j, client, task, replica);
    assert truth.changes[..|truth.changes|] == truth.changes;
    CommittedIsItsChanges(truth.initial, truth.changes);
  }

  lemma DurableKeepsChat(a: TaskView, b: TaskView)
    requires Durable(a) == Durable(b)
    ensures a.chat == b.chat
  {
    assert a.chat == Durable(a).chat == Durable(b).chat;
  }

  /** If only messages were appended to a Task, a caught-up copy lists the messages it began with and
      then every appended one, in the order of the commits. */
  lemma CaughtUpCopyListsEveryMessage(run: seq<World>, steps: seq<Step>, i: nat, j: nat, client: ClientId, task: TaskId,
                                      replica: Replica, added: seq<ChatItem>)
    requires Holds(run, steps, i, j, client, task, replica)
    requires Follows(run, steps, i + 1, j, Subscription(client, Task(task)))
    requires replica.cursor == |StreamOf(run[j].streams, Task(task))|
    requires task in run[j].tasks && run[j].tasks[task].published == |run[j].tasks[task].changes|
    requires AllChat(run[j].tasks[task].changes) == Appends(added)
    ensures replica.view.Some? && replica.view.value.chat.items == run[j].tasks[task].initial.chat.items + added
  {
    hide Durable, StreamOf, AllChat, ApplyChat, IsRunOf;
    var truth := run[j].tasks[task];
    CaughtUpCopyIsItsChanges(run, steps, i, j, client, task, replica);
    var made :| IsMadeBy(truth.initial, truth.changes, made) && Durable(replica.view.value) == Durable(made);
    DurableKeepsChat(replica.view.value, made);
    AppendsAddInOrder(truth.initial.chat, added);
  }

  // ---------------------------------------------------------------- a Task's stream

  /** Every change on the stream is the Task's own, and they come in the order of their revisions. */
  predicate OwnChanges(stream: seq<Payload>, task: TaskId) {
    && (forall n :: 0 <= n < |stream| && stream[n].TaskChanged? ==> stream[n].changedTask == task)
    && (forall m, n :: 0 <= m < n < |stream| && stream[m].TaskChanged? && stream[n].TaskChanged? ==>
                         stream[m].revision < stream[n].revision)
  }

  /** A step puts a change on a Task's stream only by publishing that Task's next change. */
  lemma CarriedIsOwn(w: World, w': World, step: Step, task: TaskId)
    requires Takes(w, w', step)
    ensures step.PublishChange? ==> step.task in w.tasks && w.tasks[step.task].published < |w.tasks[step.task].changes|
    ensures var seen := StreamStepOf(w, step, task);
            seen.Carries? && seen.payload.TaskChanged? ==>
              step.PublishChange? && step.task == task && seen.payload == NextChange(task, w.tasks[task])
  {
    StreamGrowsByStep(w, w', step, task);
    var seen := StreamStepOf(w, step, task);
    if seen.Carries? && seen.payload.TaskChanged? {
      var (event, payload) := Sends(w, step);
      var s :| s in MatchingAt(w, step) && s.scope == Task(task);
      RoutedExactlyAsIntended(event, payload, s, w.root);
    }
  }

  lemma OwnChangesGrow(tasks: map<TaskId, Truth>, stream: seq<Payload>, task: TaskId, next: Payload)
    requires OwnChanges(stream, task) && forall n :: 0 <= n < |stream| ==> TruePayload(tasks, stream[n])
    requires next.TaskChanged? ==>
               task in tasks && tasks[task].published < |tasks[task].changes| && next == NextChange(task, tasks[task])
    ensures OwnChanges(stream + [next], task)
  {
    hide Sound;
    forall m | 0 <= m < |stream| && stream[m].TaskChanged? && next.TaskChanged?
      ensures stream[m].revision < next.revision
    {
      assert TruePayload(tasks, stream[m]);
    }
  }

  /** Over any run, a Task's stream carries that Task's changes alone, each once and in order. */
  lemma {:induction false} TaskStreamsAreTheirOwn(run: seq<World>, steps: seq<Step>, j: nat, task: TaskId)
    requires IsRunOf(run, steps) && j < |run|
    ensures OwnChanges(StreamOf(run[j].streams, Task(task)), task)
    decreases j
  {
    hide IsRunOf, Takes, OwnChanges, StreamOf, StreamStepOf, NextChange;
    if j == 0 {
      EmptyStreamIsOwn(run, steps, task);
    } else {
      TaskStreamsAreTheirOwn(run, steps, j - 1, task);
      RunStep(run, steps, j - 1);
      PublishedIsTrue(run, steps, j - 1, Task(task));
      CarriedIsOwn(run[j - 1], run[j], steps[j - 1], task);
      StreamGrowsByStep(run[j - 1], run[j], steps[j - 1], task);
      var seen, before := StreamStepOf(run[j - 1], steps[j - 1], task), StreamOf(run[j - 1].streams, Task(task));
      if seen.Carries? {
        OwnChangesGrow(run[j - 1].tasks, before, task, seen.payload);
      } else {
        assert before + [] == before;
      }
    }
  }

  lemma EmptyStreamIsOwn(run: seq<World>, steps: seq<Step>, task: TaskId)
    requires IsRunOf(run, steps)
    ensures |run| > 0 && OwnChanges(StreamOf(run[0].streams, Task(task)), task)
  {
    hide Takes;
  }

  // ---------------------------------------------------------------- state without a revision

  /** An updated request takes the place of the first one with its id; the others stay. */
  lemma {:induction false} UpsertedRequestStaysInPlace(requests: seq<Request>, request: Request, at: nat)
    requires at < |requests| && requests[at].requestId == request.requestId
    requires forall i :: 0 <= i < at ==> requests[i].requestId != request.requestId
    ensures UpsertRequest(requests, request) == requests[at := request]
    decreases |requests|
  {
    if at > 0 {
      UpsertedRequestStaysInPlace(requests[1..], request, at - 1);
    }
  }

  /** A request under a new id comes last. */
  lemma {:induction false} NewRequestComesLast(requests: seq<Request>, request: Request)
    requires forall i :: 0 <= i < |requests| ==> requests[i].requestId != request.requestId
    ensures UpsertRequest(requests, request) == requests + [request]
    decreases |requests|
  {
    if requests != [] {
      NewRequestComesLast(requests[1..], request);
      assert requests == [requests[0]] + requests[1..];
    }
  }

  /** The payload puts the whole Task in place. */
  predicate Places(payload: Payload, task: TaskId) {
    payload.SnapshotReplaced? && payload.activeTask.Some? && payload.activeTask.value.summary.taskId == task
  }

  /** The requests of a Task, by the payloads that are about them. */
  function RequestsBy(payloads: seq<Payload>, task: TaskId, first: seq<Request>): seq<Request> {
    if payloads == [] then first
    else
      var before, last := RequestsBy(payloads[..|payloads| - 1], task, first), payloads[|payloads| - 1];
      if Places(last, task) then last.activeTask.value.pendingRequests
      else if last.TaskRequestsUpdated? && last.requestsTask == task then last.requests
      else if last.RequestUpdated? && last.request.scope == TaskRequest(task) then UpsertRequest(before, last.request)
      else before
  }

  predicate KeepIdentity(payloads: seq<Payload>) {
    forall n :: 0 <= n < |payloads| && payloads[n].TaskChanged? ==> KeepsIdentity(payloads[n].changes, payloads[n].changedTask)
  }

  predicate IsSync(payload: Payload, task: TaskId) {
    payload.TaskHistorySyncUpdated? && payload.syncedTask == task
  }

  /** How many payloads came up to the last whole Task. */
  function LastPlaced(payloads: seq<Payload>, task: TaskId): (n: nat)
    ensures n <= |payloads| && (n > 0 ==> Places(payloads[n - 1], task))
    ensures forall m :: n <= m < |payloads| ==> !Places(payloads[m], task)
  {
    if payloads == [] then 0
    else if Places(payloads[|payloads| - 1], task) then |payloads|
    else LastPlaced(payloads[..|payloads| - 1], task)
  }

  /** The history state the last whole Task brought. */
  function PlacedSync(payloads: seq<Payload>, task: TaskId, first: HistorySync): HistorySync {
    var n := LastPlaced(payloads, task);
    if n == 0 then first else payloads[n - 1].activeTask.value.historySync
  }

  predicate Below(payloads: seq<Payload>, task: TaskId, from: nat, to: nat, generation: nat)
    requires to <= |payloads|
  {
    forall m :: from <= m < to && IsSync(payloads[m], task) ==> payloads[m].historySync.generation < generation
  }

  /** The highest generation since the last whole Task, and the later of two. */
  ghost predicate IsLatest(payloads: seq<Payload>, task: TaskId, first: HistorySync, held: HistorySync) {
    var start, placed := LastPlaced(payloads, task), PlacedSync(payloads, task, first);
    || (held == placed && Below(payloads, task, start, |payloads|, held.generation))
    || (placed.generation <= held.generation && exists n :: start <= n < |payloads| && BroughtAt(payloads, task, start, n, held))
  }

  predicate BroughtAt(payloads: seq<Payload>, task: TaskId, start: nat, n: nat, held: HistorySync)
    requires n < |payloads|
  {
    && IsSync(payloads[n], task) && payloads[n].historySync == held
    && Below(payloads, task, start, n, held.generation + 1) && Below(payloads, task, n + 1, |payloads|, held.generation)
  }

  lemma UpdateBrings(view: TaskView, payload: Payload)
    requires payload.TaskChanged? ==> KeepsIdentity(payload.changes, payload.changedTask)
    requires UpdateView(view, payload).Changed?
    ensures var next, task := UpdateView(view, payload).view, view.summary.taskId;
            && next.summary.taskId == task
            && next.pendingRequests == RequestsBy([payload], task, view.pendingRequests)
            && next.historySync == (if Places(payload, task) then payload.activeTask.value.historySync
                                    else if IsSync(payload, task) then payload.historySync else view.historySync)
            && (IsSync(payload, task) ==> payload.historySync.generation >= view.historySync.generation)
  {
    hide ApplyChat, UpsertRequest;
    assert [payload][..0] == [];
  }

  lemma UnchangedBrings(view: TaskView, payload: Payload)
    requires UpdateView(view, payload).Unchanged?
    ensures var task := view.summary.taskId;
            && view.pendingRequests == RequestsBy([payload], task, view.pendingRequests)
            && !Places(payload, task) && (IsSync(payload, task) ==> payload.historySync.generation < view.historySync.generation)
  {
    hide ApplyChanges, UpsertRequest;
    assert [payload][..0] == [];
  }

  lemma PlacedStays(payloads: seq<Payload>, task: TaskId, first: HistorySync)
    requires payloads != [] && !Places(payloads[|payloads| - 1], task)
    ensures var init := payloads[..|payloads| - 1];
            LastPlaced(payloads, task) == LastPlaced(init, task) && PlacedSync(payloads, task, first) == PlacedSync(init, task, first)
  {
    hide Places;
  }

  lemma BelowOneMore(payloads: seq<Payload>, task: TaskId, from: nat, generation: nat)
    requires payloads != [] && Below(payloads[..|payloads| - 1], task, from, |payloads| - 1, generation)
    requires var last := payloads[|payloads| - 1]; IsSync(last, task) ==> last.historySync.generation < generation
    ensures Below(payloads, task, from, |payloads|, generation)
  {
    hide IsSync;
  }

  lemma BelowInMore(payloads: seq<Payload>, task: TaskId, from: nat, to: nat, generation: nat)
    requires payloads != [] && to < |payloads| && Below(payloads[..|payloads| - 1], task, from, to, generation)
    ensures Below(payloads, task, from, to, generation)
  {
    hide IsSync;
    var init := payloads[..|payloads| - 1];
    assert forall m :: from <= m < to ==> payloads[m] == init[m];
  }

  lemma LatestStays(payloads: seq<Payload>, task: TaskId, first: HistorySync, held: HistorySync)
    requires payloads != [] && IsLatest(payloads[..|payloads| - 1], task, first, held)
    requires var last := payloads[|payloads| - 1];
             !Places(last, task) && (IsSync(last, task) ==> last.historySync.generation < held.generation)
    ensures IsLatest(payloads, task, first, held)
  {
    hide Below, LastPlaced, PlacedSync, Places, IsSync;
    var init := payloads[..|payloads| - 1];
    var start := LastPlaced(init, task);
    PlacedStays(payloads, task, first);
    if held == PlacedSync(init, task, first) && Below(init, task, start, |init|, held.generation) {
      BelowOneMore(payloads, task, start, held.generation);
    } else {
      var n :| start <= n < |init| && BroughtAt(init, task, start, n, held);
      BelowInMore(payloads, task, start, n, held.generation + 1);
      BelowOneMore(payloads, task, n + 1, held.generation);
      assert BroughtAt(payloads, task, start, n, held);
    }
  }

  lemma LatestIsHighest(payloads: seq<Payload>, task: TaskId, first: HistorySync, held: HistorySync)
    requires IsLatest(payloads, task, first, held)
    ensures Below(payloads, task, LastPlaced(payloads, task), |payloads|, held.generation + 1)
    ensures PlacedSync(payloads, task, first).generation <= held.generation
  {
    hide LastPlaced, PlacedSync;
  }

  lemma LatestMoves(payloads: seq<Payload>, task: TaskId, first: HistorySync, held: HistorySync)
    requires payloads != [] && IsLatest(payloads[..|payloads| - 1], task, first, held)
    requires IsSync(payloads[|payloads| - 1], task) && payloads[|payloads| - 1].historySync.generation >= held.generation
    ensures IsLatest(payloads, task, first, payloads[|payloads| - 1].historySync)
  {
    hide LastPlaced, PlacedSync;
    var init, last := payloads[..|payloads| - 1], payloads[|payloads| - 1];
    PlacedStays(payloads, task, first);
    LatestIsHighest(init, task, first, held);
    BelowInMore(payloads, task, LastPlaced(init, task), |init|, held.generation + 1);
    assert BroughtAt(payloads, task, LastPlaced(init, task), |init|, last.historySync);
  }

  lemma LatestPlaced(payloads: seq<Payload>, task: TaskId, first: HistorySync)
    requires payloads != [] && Places(payloads[|payloads| - 1], task)
    ensures IsLatest(payloads, task, first, payloads[|payloads| - 1].activeTask.value.historySync)
  {
  }

  /** What a copy holds beside the revisioned Task, from the payloads it followed: the requests last
      listed with the updates since, and the history state of the highest generation since the last
      whole Task, the later one of two. */
  lemma {:induction false} FollowedStateIsLatest(view: TaskView, payloads: seq<Payload>)
    requires Follow(view, payloads).Some? && KeepIdentity(payloads)
    ensures var r, task := Follow(view, payloads).value, view.summary.taskId;
            && r.summary.taskId == task && r.pendingRequests == RequestsBy(payloads, task, view.pendingRequests)
            && IsLatest(payloads, task, view.historySync, r.historySync)
    decreases |payloads|
  {
    hide UpdateView, UpsertRequest, KeepsIdentity, RequestsBy, IsLatest;
    var task := view.summary.taskId;
    if payloads == [] {
      NothingFollowed(task, view.pendingRequests, view.historySync);
    } else {
      var init, last := payloads[..|payloads| - 1], payloads[|payloads| - 1];
      FollowedStateIsLatest(view, init);
      var before := Follow(view, init).value;
      RequestsByLast(payloads, task, view.pendingRequests);
      if UpdateView(before, last).Changed? {
        UpdateBrings(before, last);
      } else {
        UnchangedBrings(before, last);
      }
      if Places(last, task) {
        LatestPlaced(payloads, task, view.historySync);
      } else if IsSync(last, task) && UpdateView(before, last).Changed? {
        LatestMoves(payloads, task, view.historySync, before.historySync);
      } else {
        LatestStays(payloads, task, view.historySync, before.historySync);
      }
    }
  }

  lemma NothingFollowed(task: TaskId, requests: seq<Request>, first: HistorySync)
    ensures RequestsBy([], task, requests) == requests && IsLatest([], task, first, first)
  {
  }

  lemma RequestsByLast(payloads: seq<Payload>, task: TaskId, first: seq<Request>)
    requires payloads != []
    ensures var init := payloads[..|payloads| - 1];
            RequestsBy(payloads, task, first) == RequestsBy([payloads[|payloads| - 1]], task, RequestsBy(init, task, first))
  {
    hide UpsertRequest;
    assert [payloads[|payloads| - 1]][..0] == [];
  }

  // ---------------------------------------------------------------- when a resume is owed

  /** The log knows the Task and still holds every change published after the revision. */
  predicate StillHolds(log: Tasks, task: TaskId, known: nat, published: nat) {
    && task in log
    && forall r :: known < r <= published ==> HoldsRevision(log[task].entries, r)
  }

  predicate HoldsRevision(entries: seq<ChangeLogs.Entry>, revision: nat) {
    exists i :: 0 <= i < |entries| && entries[i].revision == revision
  }

  lemma MissedIsHeld(tasks: map<TaskId, Truth>, log: Tasks, task: TaskId, known: nat)
    requires task in tasks && TrueLog(tasks, log) && known < LatestRevision(tasks[task])
    ensures Missed(log, task, known, LatestRevision(tasks[task])).Some?
            <==> StillHolds(log, task, known, PublishedRevision(tasks[task]))
  {
    hide LaterThan, Replay;
    if task in log {
      var t := log[task];
      assert LogMatches(tasks[task], t);
      SinceListsEveryLaterRevision(log, task, known);
      if known < t.lastPublished && t.lastPublished - known > |t.entries| {
        assert !HoldsRevision(t.entries, known + 1);
      } else {
        forall r | known < r <= t.lastPublished
          ensures HoldsRevision(t.entries, r)
        {
          assert t.entries[|t.entries| - 1 - (t.lastPublished - r)].revision == r;
        }
      }
    }
  }

  /** The copy can be brought up to date: it is at the committed revision, or older and the log still
      holds every change published since. */
  predicate CanResume(w: World, task: TaskId, known: nat)
    requires task in w.tasks
  {
    || known == LatestRevision(w.tasks[task])
    || (known < LatestRevision(w.tasks[task]) && StillHolds(w.log, task, known, PublishedRevision(w.tasks[task])))
  }

  /** Over any run, a client that subscribes to a Task is sent a resume from its revision if and only if
      it named one, the Task can be read and that copy can be brought up to date.  Otherwise it gets the
      baseline, or the error of the read. */
  lemma ResumeExactlyWhenHeld(run: seq<World>, steps: seq<Step>, i: nat)
    requires IsRunOf(run, steps) && i + 1 < |run| && steps[i].Subscribe? && steps[i].scope.Task?
    ensures var w, s := run[i], steps[i];
            && s.scope.task in w.tasks
            && var snapshot := SnapshotFor(w.log, s.scope, s.known, s.basis, s.baseline);
               if s.known.Some? && s.basis.Err? then snapshot == Err(s.basis.error)
               else if s.known.Some? && s.basis.value.Some? && CanResume(w, s.scope.task, s.known.value) then
                 snapshot.Ok? && snapshot.value.TaskResume? && snapshot.value.resume.knownRevision == s.known.value
               else snapshot == s.baseline && (snapshot.Ok? ==> snapshot.value.TaskBaseline?)
  {
    hide IsRunOf, StillHolds, Faithful, Sound, Since;
    EveryWorldIsTrue(run, steps, i);
    RunStep(run, steps, i);
    SubscribingOnlyAnswers(run[i], run[i + 1], steps[i]);
    hide Takes;
    var s := steps[i];
    if s.known.Some? && s.known.value < LatestRevision(run[i].tasks[s.scope.task]) {
      MissedIsHeld(run[i].tasks, run[i].log, s.scope.task, s.known.value);
    }
  }
}
