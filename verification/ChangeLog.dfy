/**
 Recently published Task changes, kept so that a returning client receives only what it
 missed (state_sync/task_change_log.rs).  The log is bounded in bytes per Task and in total;
 the encoded size of a change is a parameter.
 */
module ChangeLogs {
  import opened Prelude
  import opened TaskCopies

  datatype Entry = Entry(revision: nat, changes: TaskChanges, bytes: nat)

  datatype TaskEntries = TaskEntries(lastPublished: nat, entries: seq<Entry>, bytes: nat, lastRecorded: nat)

  type Tasks = map<TaskId, TaskEntries>

  /** What the log knows about the changes after a client's revision. */
  datatype ChangesSince =
    | Changes(changes: seq<RevisionChanges>, bytes: nat)
    | Unknown
    | Evicted

  function SizeOf(entries: seq<Entry>): nat {
    if entries == [] then 0 else entries[0].bytes + SizeOf(entries[1..])
  }

  // ---------------------------------------------------------------- queries

  function LaterThan(entries: seq<Entry>, known: nat): seq<Entry> {
    if entries == [] then []
    else if entries[0].revision > known then [entries[0]] + LaterThan(entries[1..], known)
    else LaterThan(entries[1..], known)
  }

  function Published(entries: seq<Entry>): (r: seq<RevisionChanges>)
    ensures |r| == |entries|
    ensures forall i :: 0 <= i < |r| ==> r[i] == RevisionChanges(entries[i].revision, entries[i].changes)
  {
    if entries == [] then []
    else [RevisionChanges(entries[0].revision, entries[0].changes)] + Published(entries[1..])
  }

  function Since(tasks: Tasks, task: TaskId, known: nat): ChangesSince {
    if task !in tasks then Unknown
    else if known >= tasks[task].lastPublished then Changes([], 0)
    else
      var entries := tasks[task].entries;
      if entries != [] && entries[0].revision <= known + 1
      then Changes(Published(LaterThan(entries, known)), SizeOf(LaterThan(entries, known)))
      else Evicted
  }

  // ---------------------------------------------------------------- the retained run

  /** The retained entries are consecutive revisions ending at the last published one. */
  predicate IsRun(t: TaskEntries) {
    && |t.entries| <= t.lastPublished + 1
    && forall i :: 0 <= i < |t.entries| ==> t.entries[i].revision == t.lastPublished + 1 + i - |t.entries|
  }

  predicate AllRuns(tasks: Tasks) {
    forall t :: t in tasks ==> IsRun(tasks[t])
  }

  lemma {:induction false} LaterIsSuffix(entries: seq<Entry>, last: nat, known: nat)
    requires |entries| <= last + 1
    requires forall i :: 0 <= i < |entries| ==> entries[i].revision == last + 1 + i - |entries|
    requires last - |entries| <= known <= last
    ensures LaterThan(entries, known) == entries[|entries| + known - last..]
    decreases |entries|
  {
    if entries != [] {
      var rest := entries[1..];
      if entries[0].revision > known {
        assert known == last - |entries|;
        if rest != [] {
          NoneEarlier(rest, known);
        }
        assert entries == [entries[0]] + rest;
      } else {
        LaterIsSuffix(rest, last, known);
      }
    }
  }

  lemma {:induction false} NoneEarlier(entries: seq<Entry>, known: nat)
    requires forall i :: 0 <= i < |entries| ==> entries[i].revision > known
    ensures LaterThan(entries, known) == entries
    decreases |entries|
  {
    if entries != [] {
      NoneEarlier(entries[1..], known);
    }
  }

  /** For an intact run the answer is exact.  Every revision after the known one is listed, in
      order and with nothing else; and the log refuses exactly when it no longer holds them all. */
  lemma SinceListsEveryLaterRevision(tasks: Tasks, task: TaskId, known: nat)
    requires task in tasks && IsRun(tasks[task])
    ensures var t := tasks[task]; var answer := Since(tasks, task, known);
            && (answer.Evicted? <==> known < t.lastPublished && t.lastPublished - known > |t.entries|)
            && (answer.Changes? ==> |answer.changes| == if known < t.lastPublished then t.lastPublished - known else 0)
            && (answer.Changes? ==> forall i :: 0 <= i < |answer.changes| ==>
                                      && answer.changes[i].revision == known + 1 + i
                                      && var e := t.entries[|t.entries| - |answer.changes| + i];
                                         answer.changes[i] == RevisionChanges(e.revision, e.changes))
            && (answer.Changes? ==> |answer.changes| <= |t.entries|
                                    && answer.bytes == SizeOf(t.entries[|t.entries| - |answer.changes|..]))
            && !answer.Unknown?
  {
    var t := tasks[task];
    if known < t.lastPublished && |t.entries| > 0 && t.entries[0].revision <= known + 1 {
      LaterIsSuffix(t.entries, t.lastPublished, known);
    }
    assert t.entries[|t.entries|..] == [];
  }

  // ---------------------------------------------------------------- recording

  /** The run a change extends: a gap breaks the contiguous run a replay depends on. */
  function Extended(tasks: Tasks, task: TaskId, e: Entry): seq<Entry> {
    if task in tasks && tasks[task].entries != [] && e.revision == tasks[task].lastPublished + 1
    then tasks[task].entries + [e]
    else [e]
  }

  lemma ExtendedRun(tasks: Tasks, task: TaskId, e: Entry)
    ensures var t := if task in tasks then tasks[task] else TaskEntries(0, [], 0, 0);
            Extended(tasks, task, e) == (if e.revision == t.lastPublished + 1 then t.entries else []) + [e]
  {
  }

  lemma EmptySize()
    ensures SizeOf([]) == 0
  {
  }

  /** The longest suffix within the bound. */
  function Trimmed(entries: seq<Entry>, bound: nat): (r: seq<Entry>)
    ensures SizeOf(r) <= bound
    decreases |entries|
  {
    if SizeOf(entries) <= bound then entries else Trimmed(entries[1..], bound)
  }

  lemma {:induction false} TrimmedIsLongestSuffix(entries: seq<Entry>, bound: nat)
    ensures var r := Trimmed(entries, bound);
            && IsSuffix(r, entries)
            && (|r| < |entries| ==> SizeOf(entries[|entries| - |r| - 1..]) > bound)
    decreases |entries|
  {
    EmptySize();
    hide SizeOf;
    if SizeOf(entries) > bound {
      TrimmedIsLongestSuffix(entries[1..], bound);
      var r := Trimmed(entries, bound);
      if |r| < |entries| - 1 {
        assert entries[1..][|entries| - 1 - |r| - 1..] == entries[|entries| - |r| - 1..];
      } else {
        assert entries[|entries| - |r| - 1..] == entries;
      }
    }
  }

  function LastPublished(tasks: Tasks, task: TaskId): nat {
    if task in tasks then tasks[task].lastPublished else 0
  }

  /** The log after the change has been added and the Task's own bound restored. */
  function Staged(tasks: Tasks, task: TaskId, e: Entry, sequence: nat, taskBound: nat): Tasks {
    var run := Trimmed(Extended(tasks, task, e), taskBound);
    tasks[task := TaskEntries(Max(LastPublished(tasks, task), e.revision), run, SizeOf(run), sequence)]
  }

  predicate Freed(before: Tasks, after: Tasks, k: TaskId)
    requires k in before && k in after
  {
    before[k].entries != [] && after[k].entries == []
  }

  predicate IsSuffix(s: seq<Entry>, of: seq<Entry>) {
    |s| <= |of| && s == of[|of| - |s|..]
  }

  /** Every record call has its own sequence number, so recency never ties. */
  predicate Stamped(tasks: Tasks) {
    forall k, j :: k in tasks && j in tasks && tasks[k].lastRecorded == tasks[j].lastRecorded ==> k == j
  }

  /** Per Task the byte counter is exact and within bounds. */
  predicate Accounted(tasks: Tasks, sequence: nat, taskBound: nat) {
    && (forall k :: k in tasks ==> tasks[k].bytes == SizeOf(tasks[k].entries) <= taskBound)
    && (forall k :: k in tasks ==> tasks[k].lastRecorded <= sequence)
    && Stamped(tasks)
  }

  lemma StagingAccounts(tasks: Tasks, task: TaskId, e: Entry, sequence: nat, taskBound: nat)
    requires Accounted(tasks, sequence, taskBound)
    ensures Accounted(Staged(tasks, task, e, sequence + 1, taskBound), sequence + 1, taskBound)
  {
  }

  lemma FreeingAccounts(tasks: Tasks, k: TaskId, sequence: nat, taskBound: nat)
    requires Accounted(tasks, sequence, taskBound) && k in tasks
    ensures Accounted(tasks[k := Emptied(tasks[k])], sequence, taskBound)
    ensures tasks[k].entries != [] ==>
              WithoutFirst(tasks[k]).bytes == SizeOf(WithoutFirst(tasks[k]).entries)
              && Accounted(tasks[k := WithoutFirst(tasks[k])], sequence, taskBound)
  {
  }

  /** `k` is the last of the other Tasks to lose its changes. */
  predicate LastFreed(before: Tasks, after: Tasks, keep: TaskId, k: TaskId)
    requires before.Keys == after.Keys
  {
    && k in before && k != keep && Freed(before, after, k)
    && forall j :: j in before && j != keep && Freed(before, after, j) ==> before[j].lastRecorded <= before[k].lastRecorded
  }

  /** Publication marks and stamps survive; another Task keeps all its changes or none. */
  predicate OnlyEntriesGo(before: Tasks, after: Tasks, keep: TaskId)
    requires keep in before
  {
    && after.Keys == before.Keys
    && (forall k :: k in before ==>
                      && after[k].lastPublished == before[k].lastPublished
                      && after[k].lastRecorded == before[k].lastRecorded)
    && (forall k :: k in before && k != keep ==> after[k] == before[k] || Freed(before, after, k))
    && IsSuffix(after[keep].entries, before[keep].entries)
  }

  /** Whole Tasks go least recently published first. */
  predicate OldestFirst(before: Tasks, after: Tasks, keep: TaskId)
    requires before.Keys == after.Keys
  {
    forall k, j ::
      k in before && j in before && k != keep && j != keep && Freed(before, after, k) && after[j].entries != [] ==>
        before[k].lastRecorded <= before[j].lastRecorded
  }

  /** The Task just recorded gives up its oldest changes, and only after every other Task;
      and the last piece freed was still needed. */
  ghost predicate FreedByNeed(before: Tasks, after: Tasks, keep: TaskId, bound: nat)
    requires keep in before && OnlyEntriesGo(before, after, keep)
  {
    var b, a := before[keep].entries, after[keep].entries;
    && (|a| < |b| ==> (forall k :: k in before && k != keep ==> after[k].entries == [])
                      && TotalOf(after) + b[|b| - |a| - 1].bytes > bound)
    && (|a| == |b| ==> after[keep] == before[keep]
                       && forall k :: LastFreed(before, after, keep, k) ==> TotalOf(after) + before[k].bytes > bound)
  }

  ghost predicate Shrunk(before: Tasks, after: Tasks, keep: TaskId, bound: nat)
    requires keep in before
  {
    && OnlyEntriesGo(before, after, keep)
    && OldestFirst(before, after, keep)
    && FreedByNeed(before, after, keep, bound)
    && (TotalOf(before) <= bound ==> after == before)
  }

  /** Restoring the total bound drops what it must, oldest first, and nothing needlessly. */
  ghost predicate EvictedTo(before: Tasks, after: Tasks, keep: TaskId, bound: nat)
    requires keep in before
  {
    Shrunk(before, after, keep, bound) && TotalOf(after) <= bound
  }

  function Emptied(t: TaskEntries): TaskEntries {
    t.(entries := [], bytes := 0)
  }

  function WithoutFirst(t: TaskEntries): TaskEntries
    requires t.entries != [] && t.bytes == SizeOf(t.entries)
  {
    t.(entries := t.entries[1..], bytes := t.bytes - t.entries[0].bytes)
  }

  predicate IsOldestOther(tasks: Tasks, keep: TaskId, oldest: TaskId) {
    && oldest in tasks && oldest != keep && tasks[oldest].entries != []
    && forall k :: k in tasks && k != keep && tasks[k].entries != [] ==>
                     tasks[oldest].lastRecorded <= tasks[k].lastRecorded
  }

  lemma FreeingKeepsOrder(before: Tasks, current: Tasks, keep: TaskId, oldest: TaskId)
    requires keep in before && OnlyEntriesGo(before, current, keep) && OldestFirst(before, current, keep)
    requires IsOldestOther(current, keep, oldest)
    ensures var next := current[oldest := Emptied(current[oldest])];
            OnlyEntriesGo(before, next, keep) && OldestFirst(before, next, keep)
  {
    var next := current[oldest := Emptied(current[oldest])];
    assert next.Keys == before.Keys;
    assert current[oldest] == before[oldest];
  }

  lemma FreeingWasNeeded(before: Tasks, current: Tasks, keep: TaskId, bound: nat, oldest: TaskId)
    requires keep in before && Stamped(before)
    requires Shrunk(before, current, keep, bound) && TotalOf(current) > bound
    requires IsOldestOther(current, keep, oldest)
    requires OnlyEntriesGo(before, current[oldest := Emptied(current[oldest])], keep)
    ensures FreedByNeed(before, current[oldest := Emptied(current[oldest])], keep, bound)
  {
    var next := current[oldest := Emptied(current[oldest])];
    TotalAfterUpdate(current, oldest, next[oldest]);
    assert current[oldest] == before[oldest];
    assert |current[keep].entries| == |before[keep].entries|;
    forall k | LastFreed(before, next, keep, k)
      ensures TotalOf(next) + before[k].bytes > bound
    {
      if k != oldest {
        assert Freed(before, current, k) && Freed(before, next, oldest);
        assert false;
      }
    }
  }

  lemma FreeingOldestShrinks(before: Tasks, current: Tasks, keep: TaskId, bound: nat, oldest: TaskId)
    requires keep in before && Stamped(before)
    requires Shrunk(before, current, keep, bound) && TotalOf(current) > bound
    requires IsOldestOther(current, keep, oldest)
    ensures var next := current[oldest := Emptied(current[oldest])];
            && Shrunk(before, next, keep, bound)
            && TotalOf(next) == TotalOf(current) - current[oldest].bytes
  {
    FreeingKeepsOrder(before, current, keep, oldest);
    FreeingWasNeeded(before, current, keep, bound, oldest);
    TotalAfterUpdate(current, oldest, Emptied(current[oldest]));
  }

  lemma PoppingKeptShrinks(before: Tasks, current: Tasks, keep: TaskId, bound: nat)
    requires keep in before && Shrunk(before, current, keep, bound) && TotalOf(current) > bound
    requires forall k :: k in current && k != keep ==> current[k].entries == []
    requires current[keep].entries != [] && current[keep].bytes == SizeOf(current[keep].entries)
    ensures var t := current[keep];
            var next := current[keep := WithoutFirst(t)];
            && Shrunk(before, next, keep, bound)
            && TotalOf(next) == TotalOf(current) - t.entries[0].bytes
  {
    var t := current[keep];
    var next := current[keep := WithoutFirst(t)];
    TotalAfterUpdate(current, keep, next[keep]);
    var n := |before[keep].entries| - |t.entries|;
    assert t.entries[0] == before[keep].entries[n];
  }

  lemma {:induction false} SizeOfAppend(entries: seq<Entry>, e: Entry)
    ensures SizeOf(entries + [e]) == SizeOf(entries) + e.bytes
    decreases |entries|
  {
    if entries != [] {
      assert (entries + [e])[1..] == entries[1..] + [e];
      SizeOfAppend(entries[1..], e);
    }
  }

  lemma {:induction false} OversizedLeavesNothing(entries: seq<Entry>, bound: nat)
    requires entries != [] && entries[|entries| - 1].bytes > bound
    ensures Trimmed(entries, bound) == []
    decreases |entries|
  {
    SizeOfAppend(entries[..|entries| - 1], entries[|entries| - 1]);
    assert entries[..|entries| - 1] + [entries[|entries| - 1]] == entries;
    if |entries| > 1 {
      OversizedLeavesNothing(entries[1..], bound);
    }
  }

  /** The Tasks that still hold changes. */
  ghost function Holding(tasks: Tasks): set<TaskId> {
    set k | k in tasks && tasks[k].entries != []
  }

  /** One call to record, as a relation between the logs before and after it. */
  ghost predicate Recorded(before: Tasks, after: Tasks, task: TaskId, e: Entry,
                           sequence: nat, taskBound: nat, totalBound: nat)
  {
    if e.changes.removed then after == before - {task}
    else EvictedTo(Staged(before, task, e, sequence, taskBound), after, task, totalBound)
  }

  // ---------------------------------------------------------------- sums over the map

  ghost function TotalOf(tasks: Tasks): nat {
    if tasks == map[] then 0
    else
      var k :| k in tasks;
      tasks[k].bytes + TotalOf(tasks - {k})
  }

  lemma {:induction false} TotalSplits(tasks: Tasks, k: TaskId)
    requires k in tasks
    ensures TotalOf(tasks) == tasks[k].bytes + TotalOf(tasks - {k})
    decreases |tasks|
  {
    var p :| p in tasks && TotalOf(tasks) == tasks[p].bytes + TotalOf(tasks - {p});
    if p != k {
      TotalSplits(tasks - {p}, k);
      TotalSplits(tasks - {k}, p);
      assert tasks - {p} - {k} == tasks - {k} - {p};
    }
  }

  lemma TotalAfterUpdate(tasks: Tasks, k: TaskId, t: TaskEntries)
    ensures TotalOf(tasks[k := t]) == TotalOf(tasks - {k}) + t.bytes
    ensures k in tasks ==> TotalOf(tasks[k := t]) == TotalOf(tasks) - tasks[k].bytes + t.bytes
    ensures k !in tasks ==> TotalOf(tasks[k := t]) == TotalOf(tasks) + t.bytes
  {
    TotalSplits(tasks[k := t], k);
    assert tasks[k := t] - {k} == tasks - {k};
    if k in tasks {
      TotalSplits(tasks, k);
    } else {
      assert tasks - {k} == tasks;
    }
  }

  lemma {:induction false} EmptyTotal(tasks: Tasks)
    requires forall k :: k in tasks ==> tasks[k].bytes == 0
    ensures TotalOf(tasks) == 0
    decreases |tasks|
  {
    if tasks != map[] {
      var k :| k in tasks;
      TotalSplits(tasks, k);
      EmptyTotal(tasks - {k});
    }
  }

  // ---------------------------------------------------------------- the run survives

  /** The one way a call can break the contiguous run: republishing an older revision that the
      bounds let the log keep. */
  predicate Republishes(before: Tasks, task: TaskId, e: Entry, taskBound: nat, totalBound: nat) {
    && !e.changes.removed
    && e.revision < LastPublished(before, task)
    && e.bytes <= taskBound && e.bytes <= totalBound
  }

  lemma StagedRuns(before: Tasks, task: TaskId, e: Entry, sequence: nat, taskBound: nat)
    requires AllRuns(before) && e.revision >= LastPublished(before, task)
    ensures AllRuns(Staged(before, task, e, sequence, taskBound))
  {
    var run := Extended(before, task, e);
    TrimmedIsLongestSuffix(run, taskBound);
  }

  lemma EvictionKeepsRuns(before: Tasks, after: Tasks, keep: TaskId)
    requires keep in before && AllRuns(before) && OnlyEntriesGo(before, after, keep)
    ensures AllRuns(after)
  {
  }

  lemma KeptIffFits(before: Tasks, after: Tasks, task: TaskId, e: Entry, sequence: nat, taskBound: nat, totalBound: nat)
    requires !e.changes.removed && e.revision < LastPublished(before, task)
    requires Recorded(before, after, task, e, sequence, taskBound, totalBound)
    requires sequence > 0 && Accounted(before, sequence - 1, taskBound) && Accounted(after, sequence, taskBound)
    ensures after[task].entries == if e.bytes <= taskBound && e.bytes <= totalBound then [e] else []
  {
    var staged := Staged(before, task, e, sequence, taskBound);
    assert Extended(before, task, e) == [e];
    assert SizeOf([e]) == e.bytes;
    if e.bytes > taskBound {
      OversizedLeavesNothing([e], taskBound);
    }
    assert staged[task].entries == if e.bytes <= taskBound then [e] else [];
    TotalSplits(after, task);
    if staged[task].entries == [e] {
      if after[task].entries == [] {
        EmptyTotal(after);
      } else {
        assert after[task].entries == [e][0..] == [e];
      }
    }
  }

  /** Every log reached by publishing revisions in order answers from intact runs; the exact
      exception is an older revision published again. */
  lemma RunsSurviveUnlessRepublished(before: Tasks, after: Tasks, task: TaskId, e: Entry,
                                     sequence: nat, taskBound: nat, totalBound: nat)
    requires AllRuns(before) && Recorded(before, after, task, e, sequence, taskBound, totalBound)
    requires sequence > 0 && Accounted(before, sequence - 1, taskBound) && Accounted(after, sequence, taskBound)
    ensures AllRuns(after) <==> !Republishes(before, task, e, taskBound, totalBound)
  {
    if !e.changes.removed {
      var staged := Staged(before, task, e, sequence, taskBound);
      if e.revision >= LastPublished(before, task) {
        StagedRuns(before, task, e, sequence, taskBound);
        EvictionKeepsRuns(staged, after, task);
      } else {
        KeptIffFits(before, after, task, e, sequence, taskBound, totalBound);
        if !Republishes(before, task, e, taskBound, totalBound) {
          assert AllRuns(staged[task := Emptied(staged[task])]);
          forall k | k in after
            ensures IsRun(after[k])
          {
            assert k != task ==> after[k] == staged[k] || Freed(staged, after, k);
          }
        } else {
          assert !IsRun(after[task]);
        }
      }
    }
  }

  // ---------------------------------------------------------------- the log object

  class TaskChangeLog {
    var tasks: Tasks
    var totalBytes: nat
    var sequence: nat
    const taskBound: nat
    const totalBound: nat

    /** The counters are exact and both bounds hold. */
    ghost predicate Valid()
      reads this
    {
      Accounted(tasks, sequence, taskBound) && totalBytes == TotalOf(tasks) <= totalBound
    }

    constructor (taskBound: nat, totalBound: nat)
      ensures Valid() && tasks == map[]
      ensures this.taskBound == taskBound && this.totalBound == totalBound
    {
      this.taskBound, this.totalBound := taskBound, totalBound;
      tasks, totalBytes, sequence := map[], 0, 0;
    }

    method Forget(task: TaskId)
      requires Valid()
      modifies this
      ensures Valid() && tasks == old(tasks) - {task}
    {
      if task in tasks {
        TotalSplits(tasks, task);
        totalBytes := totalBytes - tasks[task].bytes;
        tasks := tasks - {task};
      } else {
        assert tasks - {task} == tasks;
      }
    }

    method Record(task: TaskId, revision: nat, changes: TaskChanges, bytes: nat)
      requires Valid()
      modifies this
      ensures Valid()
      ensures Recorded(old(tasks), tasks, task, Entry(revision, changes, bytes),
                       old(sequence) + 1, taskBound, totalBound)
    {
      hide EvictedTo, TotalOf, Trimmed, Extended, Accounted, SizeOf;
      if changes.removed {
        Forget(task);
        return;
      }
      StagingAccounts(tasks, task, Entry(revision, changes, bytes), sequence, taskBound);
      sequence := sequence + 1;
      var t, added, released := Append(task, Entry(revision, changes, bytes), sequence - 1);
      TotalAfterUpdate(tasks, task, t);
      totalBytes := totalBytes + added - released;
      tasks := tasks[task := t];
      EvictToTotalBound(task);
    }

    /** The Task's entries once the change is added, and the bytes that added and released. */
    method Append(task: TaskId, e: Entry, ghost stamps: nat) returns (t: TaskEntries, added: nat, released: nat)
      requires Accounted(tasks, stamps, taskBound)
      ensures t.entries == Trimmed(Extended(tasks, task, e), taskBound)
      ensures t.bytes == SizeOf(t.entries)
      ensures t.lastPublished == Max(LastPublished(tasks, task), e.revision) && t.lastRecorded == sequence
      ensures t.bytes == (if task in tasks then tasks[task].bytes else 0) + added - released
    {
      hide SizeOf, Trimmed, Extended;
      t := if task in tasks then tasks[task] else TaskEntries(0, [], 0, 0);
      added, released := 0, 0;
      EmptySize();
      if t.entries != [] && e.revision != t.lastPublished + 1 {
        released := t.bytes;
        t := Emptied(t);
      }
      ExtendedRun(tasks, task, e);
      t := t.(lastPublished := Max(t.lastPublished, e.revision), lastRecorded := sequence);
      if e.bytes > taskBound {
        OversizedLeavesNothing(t.entries + [e], taskBound);
        released := released + t.bytes;
        t := Emptied(t);
      } else {
        SizeOfAppend(t.entries, e);
        added := e.bytes;
        var kept, size := TrimTask(t.entries + [e], t.bytes + e.bytes);
        released := released + (t.bytes + e.bytes - size);
        t := t.(entries := kept, bytes := size);
      }
    }

    /** Drops the oldest changes of one Task until they fit its bound. */
    method TrimTask(entries: seq<Entry>, bytes: nat) returns (kept: seq<Entry>, size: nat)
      requires bytes == SizeOf(entries)
      ensures kept == Trimmed(entries, taskBound) && size == SizeOf(kept) <= bytes
    {
      kept, size := entries, bytes;
      while size > taskBound
        invariant size == SizeOf(kept) <= bytes
        invariant Trimmed(kept, taskBound) == Trimmed(entries, taskBound)
        decreases |kept|
      {
        size := size - kept[0].bytes;
        kept := kept[1..];
      }
    }

    /** The least recently published of the other Tasks that still hold changes. */
    method OldestOther(keep: TaskId) returns (oldest: Option<TaskId>)
      ensures oldest.Some? ==>
                IsOldestOther(tasks, keep, oldest.value)
      ensures oldest.None? ==> forall k :: k in tasks && k != keep ==> tasks[k].entries == []
    {
      oldest := None;
      var remaining := tasks.Keys;
      while remaining != {}
        invariant remaining <= tasks.Keys
        invariant oldest.Some? ==>
                    && oldest.value in tasks && oldest.value != keep && tasks[oldest.value].entries != []
                    && forall k :: k in tasks && k !in remaining && k != keep && tasks[k].entries != [] ==>
                                     tasks[oldest.value].lastRecorded <= tasks[k].lastRecorded
        invariant oldest.None? ==> forall k :: k in tasks && k !in remaining && k != keep ==> tasks[k].entries == []
        decreases |remaining|
      {
        var k :| k in remaining;
        remaining := remaining - {k};
        if k != keep && tasks[k].entries != [] && (oldest.None? || tasks[k].lastRecorded < tasks[oldest.value].lastRecorded) {
          oldest := Some(k);
        }
      }
    }

    method EvictToTotalBound(keep: TaskId)
      requires keep in tasks && Accounted(tasks, sequence, taskBound)
      requires totalBytes == TotalOf(tasks)
      modifies this`tasks, this`totalBytes
      ensures Valid()
      ensures EvictedTo(old(tasks), tasks, keep, totalBound)
    {
      ghost var before := tasks;
      NothingFreedYet(before, keep, totalBound);
      hide Shrunk, TotalOf, SizeOf, Accounted;
      while totalBytes > totalBound
        invariant keep in tasks && Shrunk(before, tasks, keep, totalBound)
        invariant totalBytes == TotalOf(tasks)
        invariant Accounted(tasks, sequence, taskBound)
        decreases totalBytes, |Holding(tasks)|, |tasks[keep].entries|
      {
        var oldest := OldestOther(keep);
        if oldest.Some? {
          Clear(oldest.value, keep, before);
        } else {
          PopOldest(keep, before);
        }
      }
    }

    /** Frees one Task's entries and exactly their bytes. */
    method Clear(k: TaskId, keep: TaskId, ghost before: Tasks)
      requires keep in before && keep in tasks && Stamped(before)
      requires Shrunk(before, tasks, keep, totalBound) && IsOldestOther(tasks, keep, k)
      requires totalBytes == TotalOf(tasks) > totalBound && Accounted(tasks, sequence, taskBound)
      modifies this`tasks, this`totalBytes
      ensures Shrunk(before, tasks, keep, totalBound) && Accounted(tasks, sequence, taskBound)
      ensures keep in tasks && totalBytes == TotalOf(tasks) <= old(totalBytes)
      ensures |Holding(tasks)| < |old(Holding(tasks))|
      ensures tasks[k].entries == [] && totalBytes == old(totalBytes) - old(tasks[k].bytes)
      ensures tasks.Keys == old(tasks.Keys) && forall j :: j in tasks && j != k ==> tasks[j] == old(tasks)[j]
    {
      hide Shrunk, TotalOf, SizeOf, Accounted;
      ghost var held := Holding(tasks);
      FreeingOldestShrinks(before, tasks, keep, totalBound, k);
      FreeingAccounts(tasks, k, sequence, taskBound);
      totalBytes := totalBytes - tasks[k].bytes;
      tasks := tasks[k := Emptied(tasks[k])];
      assert Holding(tasks) == held - {k};
    }

    /** Frees the oldest entry of the Task just recorded and exactly its bytes. */
    method PopOldest(keep: TaskId, ghost before: Tasks)
      requires keep in before && keep in tasks
      requires Shrunk(before, tasks, keep, totalBound)
      requires forall k :: k in tasks && k != keep ==> tasks[k].entries == []
      requires totalBytes == TotalOf(tasks) > totalBound && Accounted(tasks, sequence, taskBound)
      modifies this`tasks, this`totalBytes
      ensures Shrunk(before, tasks, keep, totalBound) && Accounted(tasks, sequence, taskBound)
      ensures keep in tasks && totalBytes == TotalOf(tasks) <= old(totalBytes)
      ensures |Holding(tasks)| <= |old(Holding(tasks))|
      ensures old(tasks[keep].entries) != [] && tasks[keep].entries == old(tasks[keep].entries)[1..]
      ensures totalBytes == old(totalBytes) - old(tasks[keep].entries)[0].bytes
      ensures tasks.Keys == old(tasks.Keys) && forall j :: j in tasks && j != keep ==> tasks[j] == old(tasks)[j]
    {
      ghost var held := Holding(tasks);
      if tasks[keep].entries == [] {
        EmptyTotal(tasks);
        assert false;
      }
      PoppingKeptShrinks(before, tasks, keep, totalBound);
      FreeingAccounts(tasks, keep, sequence, taskBound);
      hide Shrunk, TotalOf, SizeOf, Accounted;
      totalBytes := totalBytes - tasks[keep].entries[0].bytes;
      tasks := tasks[keep := WithoutFirst(tasks[keep])];
      HoldingShrinks(Holding(tasks), held);
    }
  }

  lemma NothingFreedYet(before: Tasks, keep: TaskId, bound: nat)
    requires keep in before
    ensures Shrunk(before, before, keep, bound)
  {
    assert forall k :: k in before ==> !Freed(before, before, k);
  }

  lemma HoldingShrinks(a: set<TaskId>, b: set<TaskId>)
    requires a <= b
    ensures |a| <= |b|
  {
    assert b == a + (b - a);
  }
}
