/**
 What it means that a copy is true: the Task as the store committed it, revision by revision, and
 copies that hold exactly that.
 */
module StateSync {
  import opened Prelude
  import opened TaskCopies

  // ---------------------------------------------------------------- what the store committed

  /** A Task as the store holds it: where this process found it, every change committed since,
      and how many of those the publisher has sent. */
  datatype Truth = Truth(initial: TaskView, changes: seq<TaskChanges>, published: nat)

  function Replay(view: TaskView, changes: seq<TaskChanges>): Option<TaskView>
    decreases |changes|
  {
    if changes == [] then Some(view)
    else
      var before := Replay(view, changes[..|changes| - 1]);
      if before.None? then None
      else ApplyChanges(before.value, before.value.revision + 1, changes[|changes| - 1])
  }

  predicate KeepsIdentity(changes: TaskChanges, task: TaskId) {
    changes.summary.Some? ==> changes.summary.value.taskId == task
  }

  /** Every committed change describes a transition of its Task. */
  predicate Sound(task: TaskId, truth: Truth) {
    && truth.published <= |truth.changes|
    && truth.initial.summary.taskId == task
    && (forall i :: 0 <= i < |truth.changes| ==> KeepsIdentity(truth.changes[i], task))
    && Replay(truth.initial, truth.changes).Some?
  }

  function LatestRevision(truth: Truth): nat {
    truth.initial.revision + |truth.changes|
  }

  function PublishedRevision(truth: Truth): nat {
    truth.initial.revision + truth.published
  }

  lemma {:induction false} ReplayGoesThrough(view: TaskView, changes: seq<TaskChanges>, n: nat, task: TaskId)
    requires n <= |changes| && Replay(view, changes).Some? && view.summary.taskId == task
    requires forall i :: 0 <= i < |changes| ==> KeepsIdentity(changes[i], task)
    ensures Replay(view, changes[..n]).Some?
    ensures Replay(view, changes[..n]).value.revision == view.revision + n
    ensures Replay(view, changes[..n]).value.summary.taskId == task
    decreases |changes|
  {
    if n < |changes| {
      var init := changes[..|changes| - 1];
      assert changes[..n] == init[..n];
      ReplayGoesThrough(view, init, n, task);
    } else if n > 0 {
      var init := changes[..|changes| - 1];
      assert changes[..n] == changes;
      ReplayGoesThrough(view, init, n - 1, task);
      assert init[..n - 1] == init;
    } else {
      assert changes[..n] == [];
    }
  }

  /** The committed Task at a revision. */
  function At(task: TaskId, truth: Truth, revision: nat): TaskView
    requires Sound(task, truth) && truth.initial.revision <= revision <= LatestRevision(truth)
  {
    ReplayGoesThrough(truth.initial, truth.changes, revision - truth.initial.revision, task);
    Replay(truth.initial, truth.changes[..revision - truth.initial.revision]).value
  }

  lemma AtStep(task: TaskId, truth: Truth, revision: nat)
    requires Sound(task, truth) && truth.initial.revision <= revision < LatestRevision(truth)
    ensures At(task, truth, revision).revision == revision && At(task, truth, revision).summary.taskId == task
    ensures ApplyChanges(At(task, truth, revision), revision + 1, truth.changes[revision - truth.initial.revision])
            == Some(At(task, truth, revision + 1))
  {
    hide ApplyChanges, KeepsIdentity;
    var n := revision - truth.initial.revision;
    ReplayGoesThrough(truth.initial, truth.changes, n, task);
    ReplayGoesThrough(truth.initial, truth.changes, n + 1, task);
    assert truth.changes[..n + 1][..n] == truth.changes[..n];
  }

  /** The copy holds exactly the committed Task at the revision it claims. */
  predicate Faithful(task: TaskId, truth: Truth, view: TaskView)
    requires Sound(task, truth)
  {
    && truth.initial.revision <= view.revision <= LatestRevision(truth)
    && view.summary.taskId == task
    && Durable(view) == Durable(At(task, truth, view.revision))
  }

  lemma NextChangeApplies(task: TaskId, truth: Truth, view: TaskView)
    requires Sound(task, truth) && Faithful(task, truth, view) && view.revision < LatestRevision(truth)
    ensures var next := ApplyChanges(view, view.revision + 1, truth.changes[view.revision - truth.initial.revision]);
            next.Some? && Faithful(task, truth, next.value)
  {
    AtStep(task, truth, view.revision);
    ApplyPreservesDurableEquality(view, At(task, truth, view.revision), view.revision + 1,
                                  truth.changes[view.revision - truth.initial.revision]);
  }

  /** Ordered ingestion keeps a copy faithful, whatever revision arrives. */
  lemma IngestStaysFaithful(task: TaskId, truth: Truth, view: TaskView, revision: nat)
    requires Sound(task, truth) && Faithful(task, truth, view)
    requires truth.initial.revision < revision <= LatestRevision(truth)
    ensures var r := IngestChange(view, task, revision, truth.changes[revision - truth.initial.revision - 1]);
            && (revision <= view.revision ==> r.Unchanged?)
            && (revision == view.revision + 1 ==> r.Changed? && r.view.revision == revision && Faithful(task, truth, r.view))
            && (revision > view.revision + 1 ==> r == ResyncRequired(TaskRevisionGap))
  {
    hide At, ApplyChanges;
    if revision == view.revision + 1 {
      NextChangeApplies(task, truth, view);
    }
  }

  /** Replaying consecutive missed changes moves a faithful copy forward. */
  lemma {:induction false} ReplayMissedIsFaithful(task: TaskId, truth: Truth, view: TaskView, missed: seq<RevisionChanges>)
    requires Sound(task, truth) && Faithful(task, truth, view)
    requires TrueMissed(truth, view.revision, missed)
    ensures var r := ReplayMissed(view, missed);
            r.Some? && r.value.revision == view.revision + |missed| && Faithful(task, truth, r.value)
    decreases |missed|
  {
    hide At, ApplyChanges, Faithful, Sound;
    if missed != [] {
      assert missed[0].revision == view.revision + 1;
      NextChangeApplies(task, truth, view);
      var next := ApplyChanges(view, view.revision + 1, missed[0].changes).value;
      assert forall i :: 0 <= i < |missed| - 1 ==> missed[1..][i] == missed[i + 1];
      ReplayMissedIsFaithful(task, truth, next, missed[1..]);
    }
  }

  /** The listed changes are exactly the committed ones after `known`, consecutively. */
  predicate TrueMissed(truth: Truth, known: nat, missed: seq<RevisionChanges>) {
    && (missed != [] ==> truth.initial.revision <= known && known + |missed| <= LatestRevision(truth))
    && forall i :: 0 <= i < |missed| ==>
                     && missed[i].revision == known + 1 + i
                     && missed[i].changes == truth.changes[known + i - truth.initial.revision]
  }
}
