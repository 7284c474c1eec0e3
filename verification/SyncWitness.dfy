/**
 One run of the synchronisation protocol in which a resume and a baseline disagree: a client leaves a
 Task, a change that reports the workspace gone is committed, the workspace comes back, the client
 resumes, and only then is the change published.
 */
module SyncWitness {
  import opened Prelude
  import opened TaskCopies
  import opened ChangeLogs
  import opened Routing
  import opened StateStreams
  import opened Replicas
  import opened StateSync
  import opened SyncRuns
  import opened SyncTheorems

  /** A Task whose workspace exists, a change that does not touch its summary and one that reports the
      workspace gone. */
  datatype Story = Story(root: string, client: ClientId, connection: ConnectionId, view: TaskView, first: TaskChanges, second: TaskChanges)

  predicate Fits(s: Story) {
    && s.view.summary.workspaceAvailable
    && s.first.summary.None? && s.first.chat == [] && !s.first.removed
    && s.second.summary == Some(s.view.summary.(workspaceAvailable := false)) && s.second.chat == [] && !s.second.removed
  }

  // ---------------------------------------------------------------- the Task

  function TaskOf(s: Story): TaskId {
    s.view.summary.taskId
  }

  function Revision(s: Story): nat {
    s.view.revision
  }

  function FirstView(s: Story): TaskView {
    ApplyFields(s.view, Revision(s) + 1, s.first)
  }

  function SecondView(s: Story): TaskView {
    ApplyFields(FirstView(s), Revision(s) + 2, s.second)
  }

  /** The Task after both changes, read once the workspace is back. */
  function Baseline(s: Story): TaskView {
    WithTransients(SecondView(s), TransientsOf(FirstView(s)))
  }

  lemma ChangesApply(s: Story)
    requires Fits(s)
    ensures ApplyChanges(s.view, Revision(s) + 1, s.first) == Some(FirstView(s))
    ensures ApplyChanges(FirstView(s), Revision(s) + 2, s.second) == Some(SecondView(s))
    ensures Replay(s.view, [s.first]) == Some(FirstView(s))
    ensures Replay(s.view, [s.first, s.second]) == Some(SecondView(s))
  {
    var one, two := [s.first], [s.first, s.second];
    assert one[..0] == [] && two[..1] == one;
    assert Replay(s.view, []) == Some(s.view);
  }

  lemma WorkspaceIsBack(s: Story)
    requires Fits(s)
    ensures FirstView(s).summary == s.view.summary && SecondView(s).summary == s.second.summary.value
    ensures Baseline(s) != SecondView(s) && Durable(Baseline(s)) == Durable(SecondView(s))
    ensures TransientsOf(Baseline(s)) == TransientsOf(FirstView(s)) && Baseline(s).revision == Revision(s) + 2
    ensures Baseline(s).summary.taskId == TaskOf(s)
  {
    DurableIgnoresTransients(SecondView(s), TransientsOf(FirstView(s)));
  }

  function TruthOf(s: Story, changes: seq<TaskChanges>, published: nat): map<TaskId, Truth> {
    map[TaskOf(s) := Truth(s.view, changes, published)]
  }

  lemma BothChangesAreSound(s: Story, published: nat)
    requires Fits(s) && published <= 2
    ensures Sound(TaskOf(s), Truth(s.view, [s.first, s.second], published))
    ensures At(TaskOf(s), Truth(s.view, [s.first, s.second], published), Revision(s) + 2) == SecondView(s)
    ensures TrueView(TruthOf(s, [s.first, s.second], published), TaskOf(s), Baseline(s))
  {
    ChangesApply(s);
    WorkspaceIsBack(s);
    hide ApplyFields, WithTransients, Replay, Durable;
    assert [s.first, s.second][..2] == [s.first, s.second];
  }

  lemma FirstChangeIsSound(s: Story)
    requires Fits(s)
    ensures TrueView(TruthOf(s, [s.first], 1), TaskOf(s), FirstView(s))
  {
    ChangesApply(s);
    WorkspaceIsBack(s);
    hide ApplyFields, Replay;
    assert [s.first][..1] == [s.first];
  }

  // ---------------------------------------------------------------- the worlds

  function Subscriber(s: Story): Subscription {
    Subscription(s.client, Task(TaskOf(s)))
  }

  function FirstReply(s: Story): Subscribed {
    Subscribed(0, Task(TaskOf(s)), TaskBaseline(FirstView(s)))
  }

  function SecondReply(s: Story): Subscribed {
    Subscribed(0, Task(TaskOf(s)), TaskResume(Resume(TaskOf(s), Revision(s) + 1, [], TransientsOf(FirstView(s)))))
  }

  function LogEntry(s: Story, n: nat): Entry
    requires 1 <= n <= 2
  {
    Entry(Revision(s) + n, if n == 1 then s.first else s.second, 0)
  }

  function FirstLog(s: Story): Tasks {
    map[TaskOf(s) := TaskEntries(Revision(s) + 1, [LogEntry(s, 1)], 0, 1)]
  }

  function SecondLog(s: Story): Tasks {
    map[TaskOf(s) := TaskEntries(Revision(s) + 2, [LogEntry(s, 1), LogEntry(s, 2)], 0, 2)]
  }

  function Payload2(s: Story): Payload {
    TaskChanged(TaskOf(s), Revision(s) + 2, s.second)
  }

  function Event2(s: Story): Event {
    Event(Task(TaskOf(s)), 0, 1, TaskScope(s.root, TaskOf(s)), Payload2(s))
  }

  function Copy(s: Story): Replica {
    Replica(SecondReply(s), Some(FirstView(s)), 0, [], Some(FirstView(s)))
  }

  function MovedCopy(s: Story): Replica {
    Replica(SecondReply(s), Some(FirstView(s)), 1, [Payload2(s)], Some(SecondView(s)))
  }

  function Empty(s: Story): World {
    World(s.root, map[], map[], 0, 0, 0, [], map[], map[], {}, map[])
  }

  function Created(s: Story): World {
    Empty(s).(tasks := TruthOf(s, [], 0))
  }

  function Committed(s: Story): World {
    Created(s).(tasks := TruthOf(s, [s.first], 0))
  }

  function Announced(s: Story): World {
    Committed(s).(tasks := TruthOf(s, [s.first], 1), log := FirstLog(s), stamps := 1)
  }

  function Answered(s: Story): World {
    Announced(s).(subscriptions := [Subscriber(s)], sent := {(s.client, Reply(FirstReply(s)))})
  }

  function Held(s: Story): World {
    Answered(s).(clients := map[s.client := Client(map[Task(TaskOf(s)) := Replica(FirstReply(s), Some(FirstView(s)), 0, [], Some(FirstView(s)))], map[])])
  }

  function Left(s: Story): World {
    Held(s).(clients := map[s.client := Client(map[], map[TaskOf(s) := FirstView(s)])])
  }

  function Recommitted(s: Story): World {
    Left(s).(tasks := TruthOf(s, [s.first, s.second], 1))
  }

  function Resumed(s: Story): World {
    Recommitted(s).(sent := Left(s).sent + {(s.client, Reply(SecondReply(s)))})
  }

  function Rebuilt(s: Story): World {
    Resumed(s).(clients := map[s.client := Client(map[Task(TaskOf(s)) := Copy(s)], map[TaskOf(s) := FirstView(s)])])
  }

  function Reannounced(s: Story): World {
    Rebuilt(s).(tasks := TruthOf(s, [s.first, s.second], 2), log := SecondLog(s), stamps := 2,
                cursors := map[Task(TaskOf(s)) := 1], streams := map[Task(TaskOf(s)) := [Payload2(s)]],
                sent := Resumed(s).sent + {(s.client, Live(Event2(s)))})
  }

  function Ingested(s: Story): World {
    Reannounced(s).(clients := map[s.client := Client(map[Task(TaskOf(s)) := MovedCopy(s)], map[TaskOf(s) := FirstView(s)])])
  }

  function Run(s: Story): seq<World> {
    [Empty(s), Created(s), Committed(s), Announced(s), Answered(s), Held(s), Left(s), Recommitted(s), Resumed(s), Rebuilt(s),
     Reannounced(s), Ingested(s)]
  }

  function Delivery(s: Story): EventDelivery {
    EventDelivery(s.client, s.connection, Event2(s))
  }

  function Steps(s: Story): seq<Step> {
    var task := TaskOf(s);
    [Create(task, s.view),
     Commit(task, s.first),
     PublishChange(task, 0, map[], []),
     Subscribe(s.client, Task(task), None, Ok(None), Ok(TaskBaseline(FirstView(s)))),
     Deliver(s.client, Reply(FirstReply(s)), true),
     LeaveTask(s.client, task),
     Commit(task, s.second),
     Subscribe(s.client, Task(task), Some(Revision(s) + 1), Ok(Some(Basis(Revision(s) + 2, TransientsOf(FirstView(s))))),
               Ok(TaskBaseline(Baseline(s)))),
     Deliver(s.client, Reply(SecondReply(s)), true),
     PublishChange(task, 0, map[s.client := s.connection], [Delivery(s)]),
     Deliver(s.client, Live(Event2(s)), true)]
  }

  // ---------------------------------------------------------------- step by step

  lemma Committing(s: Story)
    requires Fits(s)
    ensures Takes(Empty(s), Created(s), Steps(s)[0]) && Takes(Created(s), Committed(s), Steps(s)[1])
    ensures Takes(Left(s), Recommitted(s), Steps(s)[6])
  {
    hide FirstView, SecondView, FirstReply, FirstLog, ApplyChanges, Replay;
    ChangesApply(s);
    assert [] + [s.first] == [s.first] && [s.first] + [s.second] == [s.first, s.second];
  }

  lemma NothingEvicted(staged: Tasks, task: TaskId)
    requires task in staged && forall k :: k in staged ==> staged[k].bytes == 0
    ensures EvictedTo(staged, staged, task, 0)
  {
    EmptyTotal(staged);
    NothingFreedYet(staged, task, 0);
    hide TotalOf, Shrunk;
  }

  lemma Recording(s: Story)
    requires Fits(s)
    ensures Recorded(map[], FirstLog(s), TaskOf(s), LogEntry(s, 1), 1, 0, 0)
    ensures Recorded(FirstLog(s), SecondLog(s), TaskOf(s), LogEntry(s, 2), 2, 0, 0)
  {
    var a, b := LogEntry(s, 1), LogEntry(s, 2);
    assert [] + [a] == [a] && [a] + [b] == [a, b];
    SizeOfAppend([], a);
    SizeOfAppend([a], b);
    assert Staged(map[], TaskOf(s), a, 1, 0) == FirstLog(s);
    assert Staged(FirstLog(s), TaskOf(s), b, 2, 0) == SecondLog(s);
    NothingEvicted(FirstLog(s), TaskOf(s));
    NothingEvicted(SecondLog(s), TaskOf(s));
    hide EvictedTo;
  }

  lemma AnnouncingToNobody(s: Story)
    requires Fits(s)
    ensures Takes(Committed(s), Announced(s), Steps(s)[2])
  {
    hide Recorded, Broadcast;
    Recording(s);
    BroadcastingToNobody(s);
  }

  lemma BroadcastingToNobody(s: Story)
    ensures Broadcast(Committed(s), Announced(s), TaskScope(s.root, TaskOf(s)), TaskChanged(TaskOf(s), Revision(s) + 1, s.first), map[], [])
  {
    var w := Committed(s);
    assert Matching(w.subscriptions, TaskScope(s.root, TaskOf(s)), TaskChanged(TaskOf(s), Revision(s) + 1, s.first), w.root) == [];
    hide EventMatches;
  }

  lemma Subscribing(s: Story)
    requires Fits(s)
    ensures Takes(Announced(s), Answered(s), Steps(s)[3])
  {
    hide FirstView, Provided, FirstLog;
    BaselineIsProvided(s);
    assert [] + [Subscriber(s)] == [Subscriber(s)];
  }

  lemma BaselineIsProvided(s: Story)
    requires Fits(s)
    ensures Provided(TruthOf(s, [s.first], 1), Task(TaskOf(s)), Ok(None), Ok(TaskBaseline(FirstView(s))))
  {
    FirstChangeIsSound(s);
    FirstRevision(s);
    hide FirstView, At, Replay, Durable;
  }

  lemma HoldingAndLeaving(s: Story)
    requires Fits(s)
    ensures Takes(Answered(s), Held(s), Steps(s)[4]) && Takes(Held(s), Left(s), Steps(s)[5])
  {
    hide ApplyFields;
  }

  lemma Resuming(s: Story)
    requires Fits(s)
    ensures Takes(Recommitted(s), Resumed(s), Steps(s)[7])
  {
    hide FirstView, Baseline, Provided, FirstLog, SnapshotFor, FirstReply, SecondReply;
    ResumeIsProvided(s);
    ResumeIsAnswered(s);
    assert [Subscriber(s)][0] == Subscriber(s);
  }

  /** What the server reads for the second subscription. */
  function ResumeBasis(s: Story): Fetched<Option<Basis>> {
    Ok(Some(Basis(Revision(s) + 2, TransientsOf(FirstView(s)))))
  }

  lemma ResumeIsProvided(s: Story)
    requires Fits(s)
    ensures Provided(TruthOf(s, [s.first, s.second], 1), Task(TaskOf(s)), ResumeBasis(s), Ok(TaskBaseline(Baseline(s))))
  {
    BothChangesAreSound(s, 1);
    WorkspaceIsBack(s);
    hide FirstView, Baseline, At, Replay, Durable;
  }

  lemma ResumeIsAnswered(s: Story)
    ensures SnapshotFor(FirstLog(s), Task(TaskOf(s)), Some(Revision(s) + 1), ResumeBasis(s), Ok(TaskBaseline(Baseline(s))))
            == Ok(SecondReply(s).snapshot)
    ensures SecondReply(s).cursor == 0 && SecondReply(s).scope == Task(TaskOf(s))
  {
    hide FirstView, Baseline, LaterThan;
  }

  lemma Rebuilding(s: Story)
    requires Fits(s)
    ensures Takes(Resumed(s), Rebuilt(s), Steps(s)[8])
  {
    hide FirstView, Install, Copy, FirstReply;
    Reinstalling(s);
    hide SecondReply;
    assert (s.client, Reply(SecondReply(s))) in Resumed(s).sent;
  }

  lemma Reinstalling(s: Story)
    requires Fits(s)
    ensures Install(SecondReply(s), map[TaskOf(s) := FirstView(s)]) == Some(Copy(s)) && SecondReply(s).scope == Task(TaskOf(s))
  {
    WorkspaceIsBack(s);
    FirstRevision(s);
    OwnTransients(FirstView(s));
    hide FirstView, WithTransients;
  }

  lemma OwnTransients(view: TaskView)
    ensures WithTransients(view, TransientsOf(view)) == view
  {
  }

  lemma AnnouncingToTheClient(s: Story)
    requires Fits(s)
    ensures Takes(Rebuilt(s), Reannounced(s), Steps(s)[9])
  {
    hide Recorded, Broadcast, FirstView, SecondView, Copy, SecondReply, FirstReply;
    Recording(s);
    Broadcasting(s);
  }

  lemma Broadcasting(s: Story)
    ensures Broadcast(Rebuilt(s), Reannounced(s), TaskScope(s.root, TaskOf(s)), Payload2(s), map[s.client := s.connection], [Delivery(s)])
  {
    hide ApplyFields;
    var w := Rebuilt(s);
    var matching := Matching(w.subscriptions, TaskScope(s.root, TaskOf(s)), Payload2(s), w.root);
    assert w.subscriptions[0] == Subscriber(s);
    assert EventMatches(TaskScope(s.root, TaskOf(s)), Payload2(s), Subscriber(s), w.root);
    assert Subscriber(s) in matching && forall x :: x in matching ==> x == Subscriber(s);
    assert [] + [Payload2(s)] == [Payload2(s)];
    assert forall scope :: Touches(matching, scope) <==> scope == Task(TaskOf(s));
    assert (set d | d in [Delivery(s)] :: (d.client, Live(d.event))) == {(s.client, Live(Event2(s)))} by {
      assert [Delivery(s)][0] == Delivery(s);
    }
  }

  lemma Ingesting(s: Story)
    requires Fits(s)
    ensures Takes(Reannounced(s), Ingested(s), Steps(s)[10])
  {
    hide FirstView, SecondView, IngestEvent, SecondReply, FirstReply;
    IngestingTheEvent(s);
    hide Copy, MovedCopy;
    var scope, kept := Task(TaskOf(s)), map[TaskOf(s) := FirstView(s)];
    var before, after := Client(map[scope := Copy(s)], kept), Client(map[scope := MovedCopy(s)], kept);
    assert map[scope := Copy(s)][scope := MovedCopy(s)] == map[scope := MovedCopy(s)];
    assert Receive(before, Live(Event2(s)), s.client, s.root, true) == after;
    assert map[s.client := before][s.client := after] == map[s.client := after];
    assert (s.client, Live(Event2(s))) in Reannounced(s).sent;
  }

  lemma IngestingTheEvent(s: Story)
    requires Fits(s)
    ensures IngestEvent(Copy(s), Event2(s), s.client, s.root, true) == Applied(MovedCopy(s))
  {
    ChangesApply(s);
    WorkspaceIsBack(s);
    hide FirstView, SecondView, ApplyChanges, SecondReply;
    assert UpdateView(FirstView(s), Payload2(s)) == Changed(SecondView(s)) by {
      FirstRevision(s);
    }
    assert [] + [Payload2(s)] == [Payload2(s)];
    hide UpdateView;
  }

  lemma FirstRevision(s: Story)
    ensures FirstView(s).revision == Revision(s) + 1
  {
  }

  lemma StoryIsARun(s: Story)
    requires Fits(s)
    ensures IsRunOf(Run(s), Steps(s))
  {
    hide Takes, Starts, Steps, Empty, Created, Committed, Announced, Answered, Held, Left, Recommitted, Resumed, Rebuilt,
         Reannounced, Ingested;
    StartsEmpty(s);
    Committing(s);
    AnnouncingToNobody(s);
    Subscribing(s);
    HoldingAndLeaving(s);
    Resuming(s);
    Rebuilding(s);
    AnnouncingToTheClient(s);
    Ingesting(s);
  }

  lemma StartsEmpty(s: Story)
    ensures Starts(Empty(s)) && |Steps(s)| == 11
  {
  }

  /** Every premise of ResumeMeetsBaseline holds, and the copy the client holds in world `j` is not what the
      baseline followed by the same events gives. */
  ghost predicate Disagree(run: seq<World>, steps: seq<Step>, i: nat, j: nat, client: ClientId, task: TaskId, replica: Replica,
                           baseline: TaskView)
  {
    && Holds(run, steps, i, j, client, task, replica) && replica.reply.snapshot.TaskResume?
    && Follows(run, steps, i + 1, j, Subscription(client, Task(task)))
    && replica.cursor == |StreamOf(run[j].streams, Task(task))|
    && Comparable(run[i].tasks, run[j].tasks, task, replica.reply.snapshot.resume, baseline)
    && |StreamOf(run[i + 1].streams, Task(task))| <= |StreamOf(run[j].streams, Task(task))|
    && FollowTo(run, i + 1, j, task, baseline).Some? && replica.view != FollowTo(run, i + 1, j, task, baseline)
  }

  /** The baseline is one the same reply could have carried, and what was published covers it. */
  predicate Comparable(before: map<TaskId, Truth>, after: map<TaskId, Truth>, task: TaskId, resume: Resume, baseline: TaskView) {
    && TrueView(before, task, baseline) && baseline.revision == LatestRevision(before[task])
    && TransientsOf(baseline) == resume.current
    && task in after && PublishedRevision(after[task]) >= baseline.revision
  }

  lemma ClientHoldsTheCopy(s: Story)
    requires Fits(s)
    ensures Holds(Run(s), Steps(s), 7, 11, s.client, TaskOf(s), MovedCopy(s))
  {
    hide IsRunOf, FirstView, Baseline, SnapshotFor, MovedCopy, FirstLog, SecondReply;
    StoryIsARun(s);
    ResumeIsAnswered(s);
    CopyNamesItsReply(s);
  }

  lemma CopyNamesItsReply(s: Story)
    ensures MovedCopy(s).reply == SecondReply(s) && MovedCopy(s).cursor == 1 && MovedCopy(s).view == Some(SecondView(s))
    ensures SecondReply(s) == Subscribed(0, Task(TaskOf(s)), SecondReply(s).snapshot) && SecondReply(s).snapshot.TaskResume?
    ensures SecondReply(s).snapshot.resume.current == TransientsOf(FirstView(s))
  {
    hide FirstView, SecondView;
  }

  lemma ClientStaysSubscribed(s: Story)
    requires Fits(s)
    ensures Follows(Run(s), Steps(s), 8, 11, Subscriber(s))
  {
    hide IsRunOf, FirstView, FirstReply, SecondReply, Copy, MovedCopy, FirstLog, SecondLog, Steps;
    StoryIsARun(s);
    assert [Subscriber(s)][0] == Subscriber(s);
  }

  lemma BaselineIsComparable(s: Story)
    requires Fits(s)
    ensures Comparable(TruthOf(s, [s.first, s.second], 1), TruthOf(s, [s.first, s.second], 2), TaskOf(s),
                       SecondReply(s).snapshot.resume, Baseline(s))
  {
    hide FirstView, Baseline, TrueView;
    BothChangesAreSound(s, 1);
    WorkspaceIsBack(s);
  }

  lemma StreamsOfTheRun(s: Story)
    ensures Run(s)[7].tasks == TruthOf(s, [s.first, s.second], 1) && Run(s)[11].tasks == TruthOf(s, [s.first, s.second], 2)
    ensures StreamOf(Run(s)[8].streams, Task(TaskOf(s))) == [] && StreamOf(Run(s)[11].streams, Task(TaskOf(s))) == [Payload2(s)]
    ensures |Run(s)| == 12
  {
    hide FirstView, FirstReply, SecondReply, Copy, MovedCopy, FirstLog, SecondLog;
  }

  /** So the failing side of ResumeMeetsBaseline is reached by a run. */
  lemma ResumeAndBaselineDisagree(s: Story)
    requires Fits(s)
    ensures Disagree(Run(s), Steps(s), 7, 11, s.client, TaskOf(s), MovedCopy(s), Baseline(s))
  {
    hide Holds, Follows, Comparable, Run, Steps, MovedCopy, Baseline, SecondReply, StreamOf, Follow, FirstView, SecondView;
    ClientHoldsTheCopy(s);
    ClientStaysSubscribed(s);
    BaselineIsComparable(s);
    StreamsOfTheRun(s);
    CopyNamesItsReply(s);
    WorkspaceIsBack(s);
    BaselineSkipsTheChange(s);
    assert [Payload2(s)][0..] == [Payload2(s)];
  }

  lemma BaselineSkipsTheChange(s: Story)
    requires Fits(s)
    ensures Follow(Baseline(s), [Payload2(s)]) == Some(Baseline(s))
  {
    WorkspaceIsBack(s);
    hide ApplyFields, WithTransients;
    assert [Payload2(s)][..0] == [];
    assert Follow(Baseline(s), []) == Some(Baseline(s));
  }
}
