/**
 The workspace file index after its watcher is armed (workspace_file_index.rs): a dirty flag, one
 background refresher claimed by compare-and-exchange, a directory walk that is not atomic, and a
 watcher that reports changes late.  Every atomic access is a step of its own.
 */
module FileIndex {
  type Path = seq<string>

  /** What the watcher reports for a change: whether it is a read and the paths it names, or only that
      watching failed. */
  datatype Event = Event(access: bool, paths: seq<Path>) | WatchFailed

  predicate IsGitMetadata(root: Path, path: Path) {
    root <= path && ".git" in path[|root|..]
  }

  /** The callback's test: reads, Git's own files and failures never invalidate the index. */
  predicate Invalidates(root: Path, event: Event) {
    event.Event? && !event.access && exists p :: p in event.paths && !IsGitMetadata(root, p)
  }

  /** A change on disk: the files whose presence it may alter, and the report it will produce. */
  datatype Change = Change(touched: set<Path>, event: Event)

  /** A refresher thread between its atomic accesses. */
  datatype Phase =
    | Clearing(attempt: nat)
    | Walking(attempt: nat, varied: set<Path>)
    | Walked(attempt: nat, found: set<Path>)
    | Scanned(found: set<Path>)
    | Failed
    | Releasing

  /** `unreported` lists the changes on disk that the watcher has not reported yet. */
  datatype State = State(
    files: set<Path>,
    unreported: seq<Change>,
    dirty: bool,
    refreshing: bool,
    paths: set<Path>,
    failed: bool,
    deciding: nat,
    refreshers: map<nat, Phase>,
    spawned: nat)

  datatype Step =
    | DiskChanges(change: Change, files: set<Path>)
    | WatcherReports(index: nat)
    | SearchLoadsDirty
    | SearchClaimsRefresh
    | ScanClearsDirty(thread: nat)
    | WalkEnds(thread: nat, found: set<Path>)
    | WalkFails(thread: nat)
    | ScanLoadsDirty(thread: nat)
    | RefreshStores(thread: nat)
    | RefreshEnds(thread: nat)

  const ATTEMPTS: nat := 3

  predicate AgreeOutside(a: set<Path>, b: set<Path>, except: set<Path>) {
    forall p :: p in a + b && p !in except ==> (p in a <==> p in b)
  }

  /** What the changes touch that the callback counts, or that it filters out. */
  function TouchedBy(root: Path, changes: seq<Change>, counted: bool): set<Path> {
    if changes == [] then {}
    else (if Invalidates(root, changes[0].event) == counted then changes[0].touched else {}) + TouchedBy(root, changes[1..], counted)
  }

  function Varied(phase: Phase, touched: set<Path>): Phase {
    if phase.Walking? then phase.(varied := phase.varied + touched) else phase
  }

  function AllVaried(refreshers: map<nat, Phase>, touched: set<Path>): map<nat, Phase> {
    map t | t in refreshers :: Varied(refreshers[t], touched)
  }

  predicate Takes(root: Path, s: State, s': State, step: Step) {
    match step
    case DiskChanges(change, files) =>
      && AgreeOutside(s.files, files, change.touched)
      && s' == s.(files := files, unreported := s.unreported + [change],
                  refreshers := AllVaried(s.refreshers, change.touched))
    case WatcherReports(index) =>
      && index < |s.unreported|
      && s' == s.(unreported := s.unreported[..index] + s.unreported[index + 1..],
                  dirty := s.dirty || Invalidates(root, s.unreported[index].event))
    case SearchLoadsDirty => s' == if s.dirty then s.(deciding := s.deciding + 1) else s
    case SearchClaimsRefresh =>
      && s.deciding > 0
      && s' == if s.refreshing then s.(deciding := s.deciding - 1)
               else s.(deciding := s.deciding - 1, refreshing := true, spawned := s.spawned + 1,
                       refreshers := s.refreshers[s.spawned := Clearing(0)])
    case ScanClearsDirty(t) =>
      && t in s.refreshers && s.refreshers[t].Clearing?
      && s' == s.(dirty := false, refreshers := s.refreshers[t := Walking(s.refreshers[t].attempt, {})])
    case WalkEnds(t, found) =>
      // A file left alone during the walk is reported as it is; one that changed may go either way.
      && t in s.refreshers && s.refreshers[t].Walking?
      && AgreeOutside(found, s.files, s.refreshers[t].varied)
      && s' == s.(refreshers := s.refreshers[t := Walked(s.refreshers[t].attempt, found)])
    case WalkFails(t) =>
      && t in s.refreshers && s.refreshers[t].Walking?
      && s' == s.(refreshers := s.refreshers[t := Failed])
    case ScanLoadsDirty(t) =>
      && t in s.refreshers && s.refreshers[t].Walked?
      && s' == s.(refreshers := s.refreshers[t :=
                    if s.dirty && s.refreshers[t].attempt + 1 < ATTEMPTS then Clearing(s.refreshers[t].attempt + 1)
                    else Scanned(s.refreshers[t].found)])
    case RefreshStores(t) =>
      && t in s.refreshers && (s.refreshers[t].Scanned? || s.refreshers[t].Failed?)
      && s' == s.(paths := if s.refreshers[t].Scanned? then s.refreshers[t].found else s.paths,
                  failed := s.refreshers[t].Failed?,
                  refreshers := s.refreshers[t := Releasing])
    case RefreshEnds(t) =>
      && t in s.refreshers && s.refreshers[t].Releasing?
      && s' == s.(refreshing := false, refreshers := s.refreshers - {t})
  }

  /** Just armed: the first snapshot may lack only what the watcher has yet to report. */
  predicate Armed(root: Path, s: State) {
    && !s.dirty && !s.refreshing && !s.failed && s.refreshers == map[] && s.deciding == 0
    && AgreeOutside(s.paths, s.files, TouchedBy(root, s.unreported, true) + TouchedBy(root, s.unreported, false))
  }

  ghost predicate IsRunOf(root: Path, run: seq<State>, steps: seq<Step>) {
    && |run| == |steps| + 1 && Armed(root, run[0])
    && forall i :: 0 <= i < |steps| ==> Takes(root, run[i], run[i + 1], steps[i])
  }

  /** What has changed on disk since the flag was last cleared for a walk, without ever being counted:
      the walk may have missed it and no report will bring it back. */
  function Overlooked(root: Path, run: seq<State>, steps: seq<Step>, i: nat): set<Path>
    requires i < |run| && i <= |steps|
  {
    if i == 0 then TouchedBy(root, run[0].unreported, false) else OverlookedBy(root, Overlooked(root, run, steps, i - 1), steps[i - 1])
  }

  function OverlookedBy(root: Path, before: set<Path>, step: Step): set<Path> {
    match step
    case DiskChanges(change, _) => if Invalidates(root, change.event) then before else before + change.touched
    case ScanClearsDirty(_) => {}
    case _ => before
  }

  // ---------------------------------------------------------------- what every state keeps

  /** The listing can be wrong only about files with a change still to be reported and counted, and
      about overlooked ones. */
  predicate Fresh(root: Path, s: State, overlooked: set<Path>, listing: set<Path>) {
    AgreeOutside(listing, s.files, TouchedBy(root, s.unreported, true) + overlooked)
  }

  /** What a refresher holds is fresh unless a report has come in since it cleared the flag. */
  predicate PhaseSound(root: Path, s: State, overlooked: set<Path>, phase: Phase) {
    match phase
    case Clearing(_) => true
    case Walking(_, varied) => s.dirty || varied <= TouchedBy(root, s.unreported, true) + overlooked
    case Walked(_, found) => s.dirty || Fresh(root, s, overlooked, found)
    case Scanned(found) => s.dirty || Fresh(root, s, overlooked, found)
    case Failed => true
    case Releasing => s.dirty || s.failed || Fresh(root, s, overlooked, s.paths)
  }

  predicate SingleRefresher(s: State) {
    && (s.refreshers != map[] <==> s.refreshing)
    && (forall t, u :: t in s.refreshers && u in s.refreshers ==> t == u)
    && (forall t :: t in s.refreshers ==> t < s.spawned)
  }

  predicate Inv(root: Path, s: State, overlooked: set<Path>) {
    && SingleRefresher(s)
    && (forall t :: t in s.refreshers ==> PhaseSound(root, s, overlooked, s.refreshers[t]))
    && (!s.refreshing ==> s.dirty || s.failed || Fresh(root, s, overlooked, s.paths))
  }

  lemma {:induction false} TouchedByAppend(root: Path, changes: seq<Change>, change: Change)
    ensures TouchedBy(root, changes + [change], true)
            == TouchedBy(root, changes, true) + if Invalidates(root, change.event) then change.touched else {}
    decreases |changes|
  {
    hide Invalidates;
    if changes != [] {
      assert (changes + [change])[1..] == changes[1..] + [change];
      TouchedByAppend(root, changes[1..], change);
    } else {
      assert [change][1..] == [];
    }
  }

  lemma {:induction false} TouchedByDrop(root: Path, changes: seq<Change>, index: nat)
    requires index < |changes| && !Invalidates(root, changes[index].event)
    ensures TouchedBy(root, changes[..index] + changes[index + 1..], true) == TouchedBy(root, changes, true)
    decreases |changes|
  {
    hide Invalidates;
    var rest := changes[..index] + changes[index + 1..];
    if index == 0 {
      assert rest == changes[1..];
    } else {
      assert rest[1..] == changes[1..][..index - 1] + changes[1..][index..];
      TouchedByDrop(root, changes[1..], index - 1);
    }
  }

  lemma DiskChangeKeeps(root: Path, s: State, s': State, overlooked: set<Path>, change: Change, files: set<Path>)
    requires Inv(root, s, overlooked) && Takes(root, s, s', DiskChanges(change, files))
    ensures Inv(root, s', OverlookedBy(root, overlooked, DiskChanges(change, files)))
  {
    TouchedByAppend(root, s.unreported, change);
    hide Invalidates, TouchedBy;
    forall t | t in s'.refreshers
      ensures PhaseSound(root, s', OverlookedBy(root, overlooked, DiskChanges(change, files)), s'.refreshers[t])
    {
      assert PhaseSound(root, s, overlooked, s.refreshers[t]);
    }
  }

  lemma ReportKeeps(root: Path, s: State, s': State, overlooked: set<Path>, index: nat)
    requires Inv(root, s, overlooked) && Takes(root, s, s', WatcherReports(index))
    ensures Inv(root, s', overlooked)
  {
    if !Invalidates(root, s.unreported[index].event) {
      TouchedByDrop(root, s.unreported, index);
    }
    hide Invalidates, TouchedBy;
    forall t | t in s'.refreshers
      ensures PhaseSound(root, s', overlooked, s'.refreshers[t])
    {
      assert PhaseSound(root, s, overlooked, s.refreshers[t]);
    }
  }

  lemma RefresherKeeps(root: Path, s: State, s': State, overlooked: set<Path>, step: Step)
    requires Inv(root, s, overlooked) && Takes(root, s, s', step)
    requires !step.DiskChanges? && !step.WatcherReports?
    ensures Inv(root, s', OverlookedBy(root, overlooked, step))
  {
    hide Invalidates, TouchedBy;
    match step
    case SearchLoadsDirty =>
    case SearchClaimsRefresh =>
      if !s.refreshing {
        assert s'.refreshers == map[s.spawned := Clearing(0)];
        assert s'.refreshers.Keys == {s.spawned};
      }
    case ScanClearsDirty(t) => assert forall u :: u in s'.refreshers ==> u == t;
    case WalkEnds(t, found) => assert PhaseSound(root, s, overlooked, s.refreshers[t]);
    case WalkFails(t) =>
    case ScanLoadsDirty(t) => assert PhaseSound(root, s, overlooked, s.refreshers[t]);
    case RefreshStores(t) => assert PhaseSound(root, s, overlooked, s.refreshers[t]);
    case RefreshEnds(t) =>
      assert PhaseSound(root, s, overlooked, s.refreshers[t]);
      assert s'.refreshers == map[];
  }

  /** In every state of every interleaving, whatever the watcher filters out. */
  lemma {:induction false} EveryStateIsSound(root: Path, run: seq<State>, steps: seq<Step>, i: nat)
    requires IsRunOf(root, run, steps) && i < |run|
    ensures Inv(root, run[i], Overlooked(root, run, steps, i))
    decreases i
  {
    hide Takes, Inv, IsRunOf, OverlookedBy;
    if i == 0 {
      ArmedIsSound(root, run, steps);
    } else {
      EveryStateIsSound(root, run, steps, i - 1);
      RunStep(root, run, steps, i - 1);
      var s, s', step := run[i - 1], run[i], steps[i - 1];
      var overlooked := Overlooked(root, run, steps, i - 1);
      match step
      case DiskChanges(change, files) => DiskChangeKeeps(root, s, s', overlooked, change, files);
      case WatcherReports(index) =>
        ReportKeeps(root, s, s', overlooked, index);
        ReportsOverlookNothing(root, overlooked, index);
      case _ => RefresherKeeps(root, s, s', overlooked, step);
    }
  }

  lemma RunStep(root: Path, run: seq<State>, steps: seq<Step>, k: nat)
    requires IsRunOf(root, run, steps) && k + 1 < |run|
    ensures |run| == |steps| + 1 && Takes(root, run[k], run[k + 1], steps[k])
  {
    hide Takes;
  }

  lemma ArmedIsSound(root: Path, run: seq<State>, steps: seq<Step>)
    requires IsRunOf(root, run, steps)
    ensures |run| == |steps| + 1 && Inv(root, run[0], Overlooked(root, run, steps, 0))
  {
    hide Takes, TouchedBy;
  }

  lemma ReportsOverlookNothing(root: Path, overlooked: set<Path>, index: nat)
    ensures OverlookedBy(root, overlooked, WatcherReports(index)) == overlooked
  {
  }

  /** An index at rest: nothing to do, nothing failed, every report in. */
  predicate Settled(s: State) {
    !s.dirty && !s.refreshing && !s.failed && s.unreported == []
  }

  /** No lost invalidation.  In every interleaving of changes, reports, searches and refreshes, an
      index that is neither dirty, refreshing nor failed is wrong at most about files whose counted
      change has not been reported, and about files changed without a counted report since the last
      walk began. */
  lemma NoLostInvalidation(root: Path, run: seq<State>, steps: seq<Step>, i: nat)
    requires IsRunOf(root, run, steps) && i < |run|
    requires !run[i].dirty && !run[i].refreshing && !run[i].failed
    ensures Fresh(root, run[i], Overlooked(root, run, steps, i), run[i].paths)
    ensures Settled(run[i]) ==> AgreeOutside(run[i].paths, run[i].files, Overlooked(root, run, steps, i))
    ensures Settled(run[i]) && Overlooked(root, run, steps, i) == {} ==> run[i].paths == run[i].files
  {
    EveryStateIsSound(root, run, steps, i);
  }

  /** Whatever was overlooked is seen by the next walk: only changes since it began can be missing. */
  lemma {:induction false} NextWalkSeesEverything(root: Path, run: seq<State>, steps: seq<Step>, cleared: nat, i: nat)
    requires |run| == |steps| + 1 && cleared < i < |run| && steps[cleared].ScanClearsDirty?
    requires forall k :: cleared < k < i && steps[k].DiskChanges? ==> Reported(root, steps[k].change)
    ensures Overlooked(root, run, steps, i) == {}
    decreases i
  {
    if i > cleared + 1 {
      NextWalkSeesEverything(root, run, steps, cleared, i - 1);
    }
  }

  /** The compare-and-exchange admits one refresher at a time. */
  lemma AtMostOneRefresher(root: Path, run: seq<State>, steps: seq<Step>, i: nat)
    requires IsRunOf(root, run, steps) && i < |run|
    ensures |run[i].refreshers| <= 1 && (|run[i].refreshers| == 1 <==> run[i].refreshing)
  {
    EveryStateIsSound(root, run, steps, i);
    var s := run[i];
    if s.refreshers != map[] {
      var t :| t in s.refreshers;
      assert s.refreshers.Keys == {t};
      assert |s.refreshers| == |s.refreshers.Keys|;
    }
  }

  // ---------------------------------------------------------------- exactly when the index stays right

  /** A change that can alter the inventory reports some path that counts. */
  predicate Reported(root: Path, change: Change) {
    change.touched != {} ==> Invalidates(root, change.event)
  }

  /** The changes of the run, those already on disk at the start included, are all of one kind. */
  ghost predicate OnlyOf(run: seq<State>, steps: seq<Step>, kind: Change -> bool) {
    && |run| == |steps| + 1
    && (forall c :: c in run[0].unreported ==> kind(c))
    && (forall i :: 0 <= i < |steps| && steps[i].DiskChanges? ==> kind(steps[i].change))
  }

  /** With changes of this kind only, an index at rest always lists exactly the files. */
  ghost predicate AlwaysRight(root: Path, kind: Change -> bool) {
    forall run: seq<State>, steps: seq<Step>, i: nat :: IsRunOf(root, run, steps) && OnlyOf(run, steps, kind) && i < |run| && Settled(run[i]) ==>
                              run[i].paths == run[i].files
  }

  lemma {:induction false} NothingOverlookedAtFirst(root: Path, changes: seq<Change>)
    requires forall c :: c in changes ==> Reported(root, c)
    ensures TouchedBy(root, changes, false) == {}
    decreases |changes|
  {
    hide Invalidates;
    if changes != [] {
      NothingOverlookedAtFirst(root, changes[1..]);
      assert changes[0] in changes;
    }
  }

  lemma {:induction false} NothingOverlooked(root: Path, run: seq<State>, steps: seq<Step>, kind: Change -> bool, i: nat)
    requires OnlyOf(run, steps, kind) && i < |run| && forall c :: kind(c) ==> Reported(root, c)
    ensures Overlooked(root, run, steps, i) == {}
  {
    hide Invalidates;
    if i == 0 {
      NothingOverlookedAtFirst(root, run[0].unreported);
    } else {
      NothingOverlooked(root, run, steps, kind, i - 1);
    }
  }

  /** One uncounted change, made and reported to an index at rest. */
  function Slip(change: Change, hidden: Path): seq<State> {
    var armed := State({hidden}, [], false, false, {hidden}, false, 0, map[], 0);
    var changed := armed.(files := {}, unreported := [change]);
    [armed, changed, changed.(unreported := [])]
  }

  function SlipSteps(change: Change): seq<Step> {
    [DiskChanges(change, {}), WatcherReports(0)]
  }

  /** Any change the callback does not count can leave an index at rest with a wrong listing. */
  lemma UncountedChangeSlips(root: Path, change: Change, hidden: Path)
    requires hidden in change.touched && !Invalidates(root, change.event)
    ensures IsRunOf(root, Slip(change, hidden), SlipSteps(change))
    ensures var end := Slip(change, hidden)[2]; Settled(end) && end.paths != end.files
  {
    hide Invalidates;
    var run, steps := Slip(change, hidden), SlipSteps(change);
    assert run[0].unreported + [change] == [change];
    assert AllVaried(map[], change.touched) == map[];
    assert Takes(root, run[0], run[1], steps[0]);
    assert run[1].unreported[..0] + run[1].unreported[1..] == [];
    assert Takes(root, run[1], run[2], steps[1]);
    assert hidden in run[2].paths;
  }

  /** Over all runs with changes of some kind, an index at rest is always right if and only if every
      change of that kind that can alter the inventory is counted. */
  lemma AlwaysRightExactlyWhenCounted(root: Path, kind: Change -> bool)
    ensures AlwaysRight(root, kind) <==> forall c :: kind(c) ==> Reported(root, c)
  {
    hide Invalidates, IsRunOf;
    if forall c :: kind(c) ==> Reported(root, c) {
      forall run: seq<State>, steps: seq<Step>, i: nat | IsRunOf(root, run, steps) && OnlyOf(run, steps, kind) && i < |run| && Settled(run[i])
        ensures run[i].paths == run[i].files
      {
        NothingOverlooked(root, run, steps, kind, i);
        NoLostInvalidation(root, run, steps, i);
      }
    }
    if exists c :: kind(c) && !Reported(root, c) {
      var c :| kind(c) && !Reported(root, c);
      var hidden :| hidden in c.touched;
      UncountedChangeSlips(root, c, hidden);
      assert OnlyOf(Slip(c, hidden), SlipSteps(c), kind);
      assert !AlwaysRight(root, kind);
    }
  }

  // ---------------------------------------------------------------- a refresh makes it right

  /** The states a search of a dirty index leads through when nothing disturbs its refresh. */
  function Refresh(s: State): seq<State> {
    var t := s.spawned;
    var claimed := s.(refreshing := true, spawned := t + 1, refreshers := s.refreshers[t := Clearing(0)]);
    var walking := claimed.(dirty := false, refreshers := claimed.refreshers[t := Walking(0, {})]);
    var walked := walking.(refreshers := walking.refreshers[t := Walked(0, s.files)]);
    var scanned := walked.(refreshers := walked.refreshers[t := Scanned(s.files)]);
    var stored := scanned.(paths := s.files, failed := false, refreshers := scanned.refreshers[t := Releasing]);
    [s, s.(deciding := s.deciding + 1), claimed, walking, walked, scanned, stored,
     stored.(refreshing := false, refreshers := stored.refreshers - {t})]
  }

  function RefreshSteps(s: State): seq<Step> {
    var t := s.spawned;
    [SearchLoadsDirty, SearchClaimsRefresh, ScanClearsDirty(t), WalkEnds(t, s.files), ScanLoadsDirty(t), RefreshStores(t), RefreshEnds(t)]
  }

  lemma RefreshBegins(root: Path, s: State)
    requires s.dirty && !s.refreshing
    ensures forall k :: 0 <= k < 3 ==> Takes(root, Refresh(s)[k], Refresh(s)[k + 1], RefreshSteps(s)[k])
  {
    var states, steps := Refresh(s), RefreshSteps(s);
    assert Takes(root, states[0], states[1], steps[0]);
    assert Takes(root, states[1], states[2], steps[1]);
    assert Takes(root, states[2], states[3], steps[2]);
  }

  lemma RefreshWalks(root: Path, s: State)
    ensures forall k :: 3 <= k < 5 ==> Takes(root, Refresh(s)[k], Refresh(s)[k + 1], RefreshSteps(s)[k])
  {
    var states, steps := Refresh(s), RefreshSteps(s);
    assert Takes(root, states[3], states[4], steps[3]);
    assert Takes(root, states[4], states[5], steps[4]);
  }

  lemma RefreshFinishes(root: Path, s: State)
    ensures forall k :: 5 <= k < 7 ==> Takes(root, Refresh(s)[k], Refresh(s)[k + 1], RefreshSteps(s)[k])
  {
    var states, steps := Refresh(s), RefreshSteps(s);
    assert Takes(root, states[5], states[6], steps[5]);
    assert Takes(root, states[6], states[7], steps[6]);
  }

  lemma RefreshIsARun(root: Path, s: State)
    requires s.dirty && !s.refreshing
    ensures |Refresh(s)| == 8 && |RefreshSteps(s)| == 7 && Refresh(s)[0] == s
    ensures forall k :: 0 <= k < 7 ==> Takes(root, Refresh(s)[k], Refresh(s)[k + 1], RefreshSteps(s)[k])
    ensures Refresh(s)[7].paths == s.files == Refresh(s)[7].files && !Refresh(s)[7].dirty && !Refresh(s)[7].refreshing
    ensures !Refresh(s)[7].failed
  {
    hide Takes;
    RefreshBegins(root, s);
    RefreshWalks(root, s);
    RefreshFinishes(root, s);
  }

  /** Whatever has happened, a dirty index that nobody refreshes is put right by one search whose walk is
      not disturbed: the run goes on to an index that is clean and lists exactly the files. */
  lemma SearchPutsItRight(root: Path, run: seq<State>, steps: seq<Step>)
    requires IsRunOf(root, run, steps) && run[|run| - 1].dirty && !run[|run| - 1].refreshing
    ensures var last := run[|run| - 1];
            var longer, more := run + Refresh(last)[1..], steps + RefreshSteps(last);
            var end := longer[|longer| - 1];
            && IsRunOf(root, longer, more) && end.paths == end.files == last.files
            && !end.dirty && !end.refreshing && !end.failed
  {
    hide Takes, Refresh, RefreshSteps;
    var last := run[|run| - 1];
    RefreshIsARun(root, last);
    var longer, more := run + Refresh(last)[1..], steps + RefreshSteps(last);
    var n := |steps|;
    forall k | 0 <= k < |more|
      ensures Takes(root, longer[k], longer[k + 1], more[k])
    {
      if k < n {
        assert Takes(root, run[k], run[k + 1], steps[k]);
      } else {
        assert longer[k] == Refresh(last)[k - n] && longer[k + 1] == Refresh(last)[k - n + 1];
      }
    }
  }

  predicate Attempt(phase: Phase, most: nat) {
    match phase
    case Clearing(attempt) => attempt <= most
    case Walking(attempt, _) => attempt <= most
    case Walked(attempt, _) => attempt <= most
    case _ => true
  }

  /** A walk that a counted report disturbed is done again, up to three walks in all; the third listing is
      stored even so, and the mark stays for the next search. */
  lemma WalkIsRepeatedWhenDisturbed(root: Path, s: State, s': State, t: nat)
    requires Takes(root, s, s', ScanLoadsDirty(t)) && Attempt(s.refreshers[t], 2)
    ensures s'.dirty == s.dirty
    ensures s'.refreshers[t] == if !s.dirty || s.refreshers[t].attempt == 2 then Scanned(s.refreshers[t].found)
                                else Clearing(s.refreshers[t].attempt + 1)
  {
  }

  /** No refresh walks more than three times. */
  lemma {:induction false} AtMostThreeWalks(root: Path, run: seq<State>, steps: seq<Step>, i: nat, t: nat)
    requires IsRunOf(root, run, steps) && i < |run| && t in run[i].refreshers
    ensures Attempt(run[i].refreshers[t], 2)
    decreases i
  {
    hide IsRunOf, Invalidates;
    if i == 0 {
      NobodyAtFirst(root, run, steps);
    } else {
      RunStep(root, run, steps, i - 1);
      if t in run[i - 1].refreshers {
        AtMostThreeWalks(root, run, steps, i - 1, t);
      }
    }
  }

  lemma NobodyAtFirst(root: Path, run: seq<State>, steps: seq<Step>)
    requires IsRunOf(root, run, steps)
    ensures run[0].refreshers == map[]
  {
  }

  /** The walk is not atomic: a file that changes while it lasts may be listed either way. */
  lemma WalkMaySeeEither(root: Path, s: State, t: nat, change: Change, files: set<Path>)
    requires t in s.refreshers && s.refreshers[t].Walking? && AgreeOutside(s.files, files, change.touched)
    ensures var changed := s.(files := files, unreported := s.unreported + [change],
                              refreshers := AllVaried(s.refreshers, change.touched));
            && Takes(root, s, changed, DiskChanges(change, files))
            && forall found | found == s.files || found == files ::
                 Takes(root, changed, changed.(refreshers := changed.refreshers[t := Walked(s.refreshers[t].attempt, found)]),
                       WalkEnds(t, found))
  {
    hide Invalidates, TouchedBy;
  }

  // ---------------------------------------------------------------- which reports count

  /** The path is not below the root, or no part of it below the root is `.git`. */
  predicate OutsideGit(root: Path, path: Path) {
    || |path| < |root| || path[..|root|] != root
    || forall k :: |root| <= k < |path| ==> path[k] != ".git"
  }

  /** Something other than a read, at a path that is not Git's own. */
  predicate Ordinary(root: Path, event: Event) {
    && event.Event? && event.access == false
    && exists k :: 0 <= k < |event.paths| && OutsideGit(root, event.paths[k])
  }

  lemma GitPathsAreInside(root: Path, path: Path)
    ensures IsGitMetadata(root, path) <==> !OutsideGit(root, path)
  {
    if root <= path {
      assert path[..|root|] == root;
      assert forall k :: |root| <= k < |path| ==> path[k] == path[|root|..][k - |root|];
    }
  }

  lemma OrdinaryCounts(root: Path, event: Event)
    ensures Invalidates(root, event) <==> Ordinary(root, event)
  {
    if event.Event? {
      forall k | 0 <= k < |event.paths|
        ensures IsGitMetadata(root, event.paths[k]) <==> !OutsideGit(root, event.paths[k])
      {
        GitPathsAreInside(root, event.paths[k]);
      }
    }
  }

  /** A report of a write outside `.git` marks the index, whatever other paths it names; a read, a
      failure and a report of Git paths alone leave the mark as it was. */
  lemma ReportMarksExactlyOrdinary(root: Path, s: State, s': State, index: nat)
    requires Takes(root, s, s', WatcherReports(index))
    ensures s'.dirty <==> s.dirty || Ordinary(root, s.unreported[index].event)
    ensures s'.paths == s.paths && s'.files == s.files && s'.refreshers == s.refreshers
  {
    hide Invalidates, Ordinary;
    OrdinaryCounts(root, s.unreported[index].event);
  }

  /** The promise of the watcher, in terms of what happens on disk: over all runs with changes of some
      kind, an index at rest lists exactly the files if and only if every change of that kind that can
      alter the inventory is reported as a write outside `.git`. */
  lemma AlwaysRightExactlyWhenOrdinary(root: Path, kind: Change -> bool)
    ensures AlwaysRight(root, kind) <==> forall c :: kind(c) && c.touched != {} ==> Ordinary(root, c.event)
  {
    hide Ordinary, AlwaysRight, Invalidates;
    AlwaysRightExactlyWhenCounted(root, kind);
    forall c: Change
      ensures Reported(root, c) <==> (c.touched != {} ==> Ordinary(root, c.event))
    {
      OrdinaryCounts(root, c.event);
    }
  }

  function ExcludeFile(root: Path): Path {
    root + [".git", "info", "exclude"]
  }

  /** Editing the repository's exclude file changes which files the walk lists, and reports only a
      Git path. */
  function ExcludeEdit(root: Path, hidden: Path): Change {
    Change({hidden}, Event(false, [ExcludeFile(root)]))
  }

  lemma ExcludeEditIsUnreported(root: Path, hidden: Path)
    ensures !Reported(root, ExcludeEdit(root, hidden))
  {
    var file := ExcludeFile(root);
    assert file[|root|..] == [".git", "info", "exclude"];
    assert file[|root|..][0] == ".git";
    assert hidden in ExcludeEdit(root, hidden).touched;
  }

  /** Such an edit leaves a clean-looking index that lists a file no walk would list. */
  lemma UnreportedChangeLosesInvalidation(root: Path, hidden: Path)
    ensures var run := Slip(ExcludeEdit(root, hidden), hidden);
            && IsRunOf(root, run, SlipSteps(ExcludeEdit(root, hidden)))
            && Settled(run[2]) && run[2].paths != run[2].files
  {
    ExcludeEditIsUnreported(root, hidden);
    UncountedChangeSlips(root, ExcludeEdit(root, hidden), hidden);
  }
}
