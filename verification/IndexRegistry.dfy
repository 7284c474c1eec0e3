/**
 The bounded registry of file indexes (workspace_file_index.rs).  A search takes the lock twice:
 once to look its folder up, and, when it had to build an index without the lock, once to install
 it.  Any number of searches interleave between the two.
 */
module IndexRegistry {
  import opened Prelude

  type Root = seq<string>

  /** `runtime` identifies one built index. */
  datatype Entry = Entry(runtime: nat, lastUsed: nat)

  type Entries = map<Root, Entry>

  // ---------------------------------------------------------------- the two critical sections

  function Unexpired(entries: Entries, now: nat, ttl: nat): Entries {
    map r | r in entries && now <= entries[r].lastUsed + ttl :: entries[r]
  }

  function Touched(entries: Entries, root: Root, now: nat): Entries {
    if root in entries then entries[root := entries[root].(lastUsed := now)] else entries
  }

  function LookedUp(entries: Entries, root: Root, now: nat, ttl: nat): Entries {
    Touched(Unexpired(entries, now, ttl), root, now)
  }

  /** Room for one more: least recently used indexes go, as many as needed and no more. */
  ghost predicate RoomMade(before: Entries, after: Entries, cap: nat) {
    && after.Keys <= before.Keys && (forall r :: r in after ==> after[r] == before[r])
    && (forall gone, kept :: gone in before && gone !in after && kept in after ==>
                               before[gone].lastUsed <= before[kept].lastUsed)
    && |after| == if |before| < cap then |before| else cap - 1
  }

  ghost predicate Installed(before: Entries, after: Entries, root: Root, entry: Entry, now: nat, cap: nat) {
    if root in before then after == Touched(before, root, now)
    else exists room :: RoomMade(before, room, cap) && after == room[root := entry]
  }

  lemma RemovingOne(entries: Entries, root: Root)
    requires root in entries
    ensures |entries - {root}| == |entries| - 1
  {
    assert (entries - {root}).Keys == entries.Keys - {root};
  }

  lemma AddingOne(entries: Entries, root: Root, entry: Entry)
    requires root !in entries
    ensures |entries[root := entry]| == |entries| + 1
  {
    assert entries[root := entry].Keys == entries.Keys + {root};
  }

  class Registry {
    var entries: Entries
    const cap: nat
    const ttl: nat

    ghost predicate Valid()
      reads this
    {
      cap >= 1 && |entries| <= cap
    }

    constructor (cap: nat, ttl: nat)
      ensures Valid() && entries == map[] && this.cap == (if cap < 1 then 1 else cap) && this.ttl == ttl
    {
      this.cap := if cap < 1 then 1 else cap;
      this.ttl := ttl;
      entries := map[];
    }

    /** First critical section: drops idle indexes and returns the folder's own if registered. */
    method Lookup(root: Root, now: nat) returns (found: Option<nat>)
      requires Valid()
      modifies this
      ensures Valid() && entries == LookedUp(old(entries), root, now, ttl)
      ensures found == if root in entries then Some(entries[root].runtime) else None
    {
      ghost var before := entries;
      entries := map r | r in entries && now <= entries[r].lastUsed + ttl :: entries[r];
      ShrinkingKeepsSize(before, entries);
      found := None;
      if root in entries {
        ghost var kept := entries;
        entries := entries[root := entries[root].(lastUsed := now)];
        assert entries.Keys == kept.Keys;
        found := Some(entries[root].runtime);
      }
    }

    /** The least recently used folder. */
    method Oldest() returns (oldest: Root)
      requires entries != map[]
      ensures oldest in entries && forall r :: r in entries ==> entries[oldest].lastUsed <= entries[r].lastUsed
    {
      oldest :| oldest in entries;
      var remaining := entries.Keys;
      while remaining != {}
        invariant remaining <= entries.Keys && oldest in entries
        invariant forall r :: r in entries && r !in remaining ==> entries[oldest].lastUsed <= entries[r].lastUsed
        decreases |remaining|
      {
        var r :| r in remaining;
        remaining := remaining - {r};
        if entries[r].lastUsed < entries[oldest].lastUsed {
          oldest := r;
        }
      }
    }

    /** Second critical section: another search may have registered the folder meanwhile, and
        then its index wins. */
    method Install(root: Root, built: Entry, now: nat) returns (runtime: nat)
      requires Valid()
      modifies this
      ensures Valid() && Installed(old(entries), entries, root, built, now, cap)
      ensures root in entries && runtime == entries[root].runtime
      ensures runtime == if root in old(entries) then old(entries)[root].runtime else built.runtime
    {
      ghost var before := entries;
      if root in entries {
        entries := entries[root := entries[root].(lastUsed := now)];
        assert entries.Keys == before.Keys;
        return entries[root].runtime;
      }
      MakeRoom();
      AddingOne(entries, root, built);
      assert RoomMade(before, entries, cap);
      entries := entries[root := built];
      runtime := built.runtime;
    }

    method MakeRoom()
      requires Valid()
      modifies this`entries
      ensures RoomMade(old(entries), entries, cap)
    {
      ghost var before := entries;
      while |entries| >= cap
        invariant entries.Keys <= before.Keys && forall r :: r in entries ==> entries[r] == before[r]
        invariant forall gone, kept :: gone in before && gone !in entries && kept in entries ==>
                                         before[gone].lastUsed <= before[kept].lastUsed
        invariant |entries| <= |before|
        invariant |before| < cap ==> entries == before
        invariant |before| >= cap ==> |entries| >= cap - 1
        decreases |entries|
      {
        if entries == map[] {
          break;
        }
        var oldest := Oldest();
        RemovingOne(entries, oldest);
        entries := entries - {oldest};
      }
    }

    method Forget(root: Root)
      requires Valid()
      modifies this
      ensures Valid() && entries == old(entries) - {root}
    {
      ghost var before := entries;
      entries := entries - {root};
      ShrinkingKeepsSize(before, entries);
    }
  }

  lemma ShrinkingKeepsSize(before: Entries, after: Entries)
    requires after.Keys <= before.Keys
    ensures |after| <= |before|
  {
    assert before.Keys == after.Keys + (before.Keys - after.Keys);
    assert |before| == |before.Keys| && |after| == |after.Keys|;
  }

  // ---------------------------------------------------------------- interleaved searches

  /** A search that missed is building its own index for its folder. */
  datatype Search = Building(root: Root, startedAt: nat, built: nat) | Returned(root: Root, runtime: nat)

  datatype World = World(entries: Entries, searches: map<nat, Search>, runtimes: nat, cap: nat, ttl: nat)

  datatype Step =
    | Begins(search: nat, root: Root, now: nat)
    | Finishes(search: nat, builtAt: nat)
    | BuildFails(search: nat)
    | Forgets(root: Root)

  ghost predicate Takes(w: World, w': World, step: Step) {
    match step
    case Begins(id, root, now) =>
      && id !in w.searches
      && var entries := LookedUp(w.entries, root, now, w.ttl);
         w' == w.(entries := entries,
                  runtimes := if root in entries then w.runtimes else w.runtimes + 1,
                  searches := w.searches[id := if root in entries then Returned(root, entries[root].runtime)
                                               else Building(root, now, w.runtimes)])
    case Finishes(id, builtAt) =>
      && id in w.searches && w.searches[id].Building?
      && var s := w.searches[id];
         && Installed(w.entries, w'.entries, s.root, Entry(s.built, builtAt), s.startedAt, w.cap)
         && var runtime := if s.root in w.entries then w.entries[s.root].runtime else s.built;
            w' == w.(entries := w'.entries, searches := w.searches[id := Returned(s.root, runtime)])
    case BuildFails(id) =>
      id in w.searches && w.searches[id].Building? && w' == w.(searches := w.searches - {id})
    case Forgets(root) => w' == w.(entries := w.entries - {root})
  }

  /** No two folders share an index. */
  predicate Unshared(entries: Entries, runtimes: nat) {
    && (forall r :: r in entries ==> entries[r].runtime < runtimes)
    && (forall r, q :: r in entries && q in entries && entries[r].runtime == entries[q].runtime ==> r == q)
  }

  /** An index under construction belongs to its search alone. */
  predicate Apart(entries: Entries, searches: map<nat, Search>, runtimes: nat) {
    && (forall i :: i in searches && searches[i].Building? ==> searches[i].built < runtimes)
    && (forall i, r :: i in searches && searches[i].Building? && r in entries ==> entries[r].runtime != searches[i].built)
    && (forall i, j :: i in searches && j in searches && i != j && searches[i].Building? && searches[j].Building? ==>
                         searches[i].built != searches[j].built)
  }

  predicate Inv(w: World) {
    w.cap >= 1 && |w.entries| <= w.cap && Unshared(w.entries, w.runtimes) && Apart(w.entries, w.searches, w.runtimes)
  }

  ghost predicate IsRunOf(run: seq<World>, steps: seq<Step>) {
    && |run| == |steps| + 1 && run[0].entries == map[] && run[0].searches == map[] && run[0].cap >= 1
    && forall i :: 0 <= i < |steps| ==> Takes(run[i], run[i + 1], steps[i])
  }

  lemma BeginKeeps(w: World, w': World, id: nat, root: Root, now: nat)
    requires Inv(w) && Takes(w, w', Begins(id, root, now))
    ensures Inv(w')
  {
    var entries := w'.entries;
    LookupKeepsRuntimes(w.entries, root, now, w.ttl);
    ShrinkingKeepsSize(w.entries, entries);
    hide LookedUp;
    assert Unshared(entries, w'.runtimes);
    assert Apart(entries, w'.searches, w'.runtimes);
  }

  lemma LookupKeepsRuntimes(entries: Entries, root: Root, now: nat, ttl: nat)
    ensures var after := LookedUp(entries, root, now, ttl);
            after.Keys <= entries.Keys && forall r :: r in after ==> after[r].runtime == entries[r].runtime
  {
  }

  lemma FinishKeeps(w: World, w': World, id: nat, builtAt: nat)
    requires Inv(w) && Takes(w, w', Finishes(id, builtAt))
    ensures Inv(w')
  {
    var s := w.searches[id];
    if s.root in w.entries {
      assert w'.entries.Keys == w.entries.Keys;
      assert |w'.entries| == |w'.entries.Keys| == |w.entries|;
      assert forall r :: r in w'.entries ==> w'.entries[r].runtime == w.entries[r].runtime;
    } else {
      var room :| RoomMade(w.entries, room, w.cap) && w'.entries == room[s.root := Entry(s.built, builtAt)];
      InstallingKeeps(w, room, id, builtAt);
    }
  }

  lemma InstallingKeeps(w: World, room: Entries, id: nat, builtAt: nat)
    requires Inv(w) && id in w.searches && w.searches[id].Building? && w.searches[id].root !in w.entries
    requires RoomMade(w.entries, room, w.cap)
    ensures var s := w.searches[id];
            var entries := room[s.root := Entry(s.built, builtAt)];
            && |entries| <= w.cap && Unshared(entries, w.runtimes)
            && forall runtime :: Apart(entries, w.searches[id := Returned(s.root, runtime)], w.runtimes)
  {
    var s := w.searches[id];
    assert s.root !in room;
    AddingOne(room, s.root, Entry(s.built, builtAt));
    assert forall r :: r in room ==> room[r] == w.entries[r];
    hide RoomMade;
  }

  lemma {:induction false} EveryRegistryIsBounded(run: seq<World>, steps: seq<Step>, i: nat)
    requires IsRunOf(run, steps) && i < |run|
    ensures Inv(run[i]) && run[i].cap == run[0].cap
    decreases i
  {
    if i > 0 {
      EveryRegistryIsBounded(run, steps, i - 1);
      var w, w', step := run[i - 1], run[i - 1 + 1], steps[i - 1];
      assert Takes(w, w', step);
      match step
      case Begins(id, root, now) => BeginKeeps(w, w', id, root, now);
      case Finishes(id, builtAt) => FinishKeeps(w, w', id, builtAt);
      case BuildFails(_) =>
      case Forgets(root) => ShrinkingKeepsSize(w.entries, w'.entries);
    }
  }

  /** The step lets the search return. */
  predicate ReturnsNow(w: World, w': World, id: nat) {
    id in w'.searches && w'.searches[id].Returned? && (id in w.searches ==> w.searches[id].Building?)
  }

  /** Whatever interleaves, the registry stays within its cap, and the index a search returns is the
      one registered for its folder at that moment, even when several searches built that folder and
      making room dropped others. */
  lemma ReturnedIndexIsRegistered(run: seq<World>, steps: seq<Step>, i: nat, id: nat)
    requires IsRunOf(run, steps) && i < |steps| && ReturnsNow(run[i], run[i + 1], id)
    ensures |run[i + 1].entries| <= run[0].cap
    ensures var s := run[i + 1].searches[id];
            s.root in run[i + 1].entries && run[i + 1].entries[s.root].runtime == s.runtime
  {
    assert Takes(run[i], run[i + 1], steps[i]);
    EveryRegistryIsBounded(run, steps, i + 1);
  }

  /** A folder's index never changes while the folder stays registered. */
  lemma StepKeepsRegistered(w: World, w': World, step: Step, root: Root)
    requires Takes(w, w', step) && root in w.entries && root in w'.entries
    ensures w'.entries[root].runtime == w.entries[root].runtime
  {
  }

  lemma {:induction false} RegisteredIndexStays(run: seq<World>, steps: seq<Step>, i: nat, j: nat, root: Root)
    requires IsRunOf(run, steps) && i <= j < |run| && forall k :: i <= k <= j ==> root in run[k].entries
    ensures run[j].entries[root].runtime == run[i].entries[root].runtime
    decreases j - i
  {
    hide Takes;
    if i < j {
      RegisteredIndexStays(run, steps, i, j - 1, root);
      assert Takes(run[j - 1], run[j - 1 + 1], steps[j - 1]);
      StepKeepsRegistered(run[j - 1], run[j], steps[j - 1], root);
    }
  }

  /** All the searches that return a folder's index while the folder stays registered return the same
      one, whoever built it. */
  lemma SearchesShareTheIndex(run: seq<World>, steps: seq<Step>, i: nat, j: nat, first: nat, second: nat)
    requires IsRunOf(run, steps) && i <= j < |steps|
    requires ReturnsNow(run[i], run[i + 1], first) && ReturnsNow(run[j], run[j + 1], second)
    requires run[i + 1].searches[first].root == run[j + 1].searches[second].root
    requires forall k :: i + 1 <= k <= j + 1 ==> run[i + 1].searches[first].root in run[k].entries
    ensures run[j + 1].searches[second] == run[i + 1].searches[first]
  {
    hide Takes;
    ReturnedIndexIsRegistered(run, steps, i, first);
    ReturnedIndexIsRegistered(run, steps, j, second);
    RegisteredIndexStays(run, steps, i + 1, j + 1, run[i + 1].searches[first].root);
  }

  /** Two searches that built one folder agree, unless the first one's index has gone by then. */
  lemma RivalBuildersAgree(run: seq<World>, steps: seq<Step>, i: nat, first: nat, second: nat)
    requires IsRunOf(run, steps) && i < |steps| && steps[i].Finishes? && steps[i].search == second
    requires first in run[i].searches && run[i].searches[first].Returned?
    requires second in run[i].searches && run[i].searches[second].Building?
    requires run[i].searches[second].root == run[i].searches[first].root
    ensures var mine := run[i].searches[first];
            var theirs := run[i + 1].searches[second];
            mine.root in run[i].entries && run[i].entries[mine.root].runtime == mine.runtime ==>
              theirs == Returned(mine.root, mine.runtime)
  {
    assert Takes(run[i], run[i + 1], steps[i]);
  }

  // ---------------------------------------------------------------- how long an index stays

  /** When the step uses the folder's index, the time that is noted: a search that finds it, one that
      lost a race to build it, or one that registers its own. */
  function UsedAt(w: World, w': World, step: Step, root: Root): Option<nat> {
    match step
    case Begins(_, r, now) => if r == root && root in w'.entries then Some(now) else None
    case Finishes(id, builtAt) =>
      if id in w.searches && w.searches[id].Building? && w.searches[id].root == root
      then Some(if root in w.entries then w.searches[id].startedAt else builtAt) else None
    case _ => None
  }

  lemma StepNotesUse(w: World, w': World, step: Step, root: Root)
    requires Takes(w, w', step) && root in w'.entries
    ensures w'.ttl == w.ttl
    ensures var used := UsedAt(w, w', step, root);
            if used.Some? then w'.entries[root].lastUsed == used.value
            else root in w.entries && w'.entries[root] == w.entries[root]
  {
  }

  lemma LookupDropsExactlyIdle(entries: Entries, root: Root, now: nat, ttl: nat, other: Root)
    requires other in entries
    ensures other in LookedUp(entries, root, now, ttl) <==> now <= entries[other].lastUsed + ttl
  {
  }

  /** The index was last used by step `k`, at this time. */
  ghost predicate LastUsedBy(run: seq<World>, steps: seq<Step>, k: nat, i: nat, root: Root, time: nat)
    requires k < i < |run| && |run| == |steps| + 1
  {
    && UsedAt(run[k], run[k + 1], steps[k], root) == Some(time)
    && forall m :: k < m < i ==> UsedAt(run[m], run[m + 1], steps[m], root) == None
  }

  lemma {:induction false} EveryIndexWasUsed(run: seq<World>, steps: seq<Step>, i: nat, root: Root) returns (k: nat)
    requires IsRunOf(run, steps) && i < |run| && root in run[i].entries
    ensures k < i && LastUsedBy(run, steps, k, i, root, run[i].entries[root].lastUsed) && run[i].ttl == run[0].ttl
    decreases i
  {
    hide Takes, UsedAt;
    RunStep(run, steps, i - 1);
    StepNotesUse(run[i - 1], run[i], steps[i - 1], root);
    SameTtl(run, steps, i);
    if UsedAt(run[i - 1], run[i], steps[i - 1], root).Some? {
      k := i - 1;
    } else {
      k := EveryIndexWasUsed(run, steps, i - 1, root);
    }
  }

  lemma RunStep(run: seq<World>, steps: seq<Step>, k: nat)
    requires IsRunOf(run, steps) && k + 1 < |run|
    ensures Takes(run[k], run[k + 1], steps[k])
  {
  }

  lemma {:induction false} SameTtl(run: seq<World>, steps: seq<Step>, i: nat)
    requires IsRunOf(run, steps) && i < |run|
    ensures run[i].ttl == run[0].ttl
  {
    if i > 0 {
      SameTtl(run, steps, i - 1);
      RunStep(run, steps, i - 1);
    }
  }

  /** Over any run, a search that begins leaves a registered index in place if and only if the index was
      last used no longer ago than the idle time; whose folder the search is for makes no difference. */
  lemma KeptExactlyWhileUsed(run: seq<World>, steps: seq<Step>, i: nat, root: Root) returns (k: nat, time: nat)
    requires IsRunOf(run, steps) && i < |steps| && steps[i].Begins? && root in run[i].entries
    ensures k < i && LastUsedBy(run, steps, k, i, root, time)
    ensures root in run[i + 1].entries <==> steps[i].now <= time + run[0].ttl
  {
    hide UsedAt, LookedUp;
    time := run[i].entries[root].lastUsed;
    k := EveryIndexWasUsed(run, steps, i, root);
    RunStep(run, steps, i);
    LookupDropsExactlyIdle(run[i].entries, steps[i].root, steps[i].now, run[i].ttl, root);
  }

  lemma DroppedCount(before: Entries, room: Entries)
    requires room.Keys <= before.Keys
    ensures |before.Keys - room.Keys| == |before| - |room| && (|before| == |room| ==> before.Keys - room.Keys == {})
  {
    assert before.Keys == room.Keys + (before.Keys - room.Keys);
    assert |before| == |before.Keys| && |room| == |room.Keys|;
  }

  lemma AddedDropsNothing(before: Entries, room: Entries, root: Root, entry: Entry)
    requires root !in before
    ensures before.Keys - room[root := entry].Keys == before.Keys - room.Keys
  {
  }

  lemma RoomDrops(before: Entries, room: Entries, cap: nat)
    requires RoomMade(before, room, cap) && 1 <= cap && |before| <= cap
    ensures if |before| < cap then before.Keys - room.Keys == {} else |before.Keys - room.Keys| == 1
    ensures forall g, k :: g in before && g !in room && k in room ==> k in before && before[g].lastUsed <= before[k].lastUsed
  {
    DroppedCount(before, room);
  }

  /** What registering drops. */
  lemma InstallDrops(before: Entries, after: Entries, root: Root, entry: Entry, now: nat, cap: nat)
    requires Installed(before, after, root, entry, now, cap) && 1 <= cap && |before| <= cap
    ensures root in after && (|before| < cap || root in before ==> before.Keys - after.Keys == {})
    ensures |before| == cap && root !in before ==> |before.Keys - after.Keys| == 1
    ensures forall g, k :: g in before && g !in after && k in before && k in after ==> before[g].lastUsed <= before[k].lastUsed
  {
    hide RoomMade;
    if root in before {
      assert after.Keys == before.Keys;
    } else {
      var room :| RoomMade(before, room, cap) && after == room[root := entry];
      RoomDrops(before, room, cap);
      AddedDropsNothing(before, room, root, entry);
    }
  }

  /** Over any run, registering an index drops nothing while there is room, and otherwise exactly one
      other: one that nothing kept was used before. */
  lemma OneOldestMakesRoom(run: seq<World>, steps: seq<Step>, i: nat)
    requires IsRunOf(run, steps) && i < |steps| && steps[i].Finishes?
    ensures var before, after, gone := run[i].entries, run[i + 1].entries, run[i].entries.Keys - run[i + 1].entries.Keys;
            && run[i].searches[steps[i].search].root in after
            && (|before| < run[0].cap || run[i].searches[steps[i].search].root in before ==> gone == {})
            && (|before| == run[0].cap && run[i].searches[steps[i].search].root !in before ==> |gone| == 1)
            && forall g, k :: g in gone && k in before && k in after ==> before[g].lastUsed <= before[k].lastUsed
  {
    hide Installed, Unshared, Apart;
    RunStep(run, steps, i);
    EveryRegistryIsBounded(run, steps, i);
    var s := run[i].searches[steps[i].search];
    InstallDrops(run[i].entries, run[i + 1].entries, s.root, Entry(s.built, steps[i].builtAt), s.startedAt, run[i].cap);
  }
}
