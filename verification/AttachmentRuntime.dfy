/**
 The attachment runtime object (attachment_runtime.rs): each call under its lock, and the restore of
 a queued message that takes the lock once for every handle.
 */
module AttachmentRuntimes {
  import opened Prelude
  import opened Attachments

  // ---------------------------------------------------------------- restoring, as functions

  /** A queued attachment as the agent saw it; `None` stands for data the record should have. */
  datatype Queued =
    | Image(name: string, data: Option<string>)
    | File(name: string, path: Option<string>, inside: bool)
    | Snapshot(name: string, agent: string)

  datatype PreSend = PreSend(id: nat, name: string)

  datatype ComposerImage = ComposerImage(name: string, data: string)

  predicate Restorable(q: Queued) {
    match q
    case Image(_, data) => data.Some?
    case File(_, path, inside) => path.Some? && inside
    case Snapshot(_, _) => true
  }

  function TargetOf(q: Queued, chat: string): Target
    requires !q.Image? && Restorable(q)
  {
    if q.File? then FileReference(q.path.value) else QueuedSnapshot(chat, q.agent)
  }

  predicate AllRestorable(items: seq<Queued>) {
    forall i :: 0 <= i < |items| ==> Restorable(items[i])
  }

  /** The state after restoring the items, the `i`-th at time `clock(i)`. */
  function Restored(s: State, owner: Owner, chat: seq<string>, items: seq<Queued>, clock: nat -> int, ttl: int): State
    requires |chat| == |items| && AllRestorable(items)
  {
    if items == [] then s
    else
      var last := |items| - 1;
      var before := Restored(s, owner, chat[..last], items[..last], clock, ttl);
      if items[last].Image? then before
      else
        Register(before, Handle(owner, items[last].name, TargetOf(items[last], chat[last]), clock(last) + ttl), clock(last))
  }

  /** The handles of the items that are not images, numbered upwards in the items' order. */
  function Files(items: seq<Queued>, from: nat): seq<PreSend> {
    if items == [] then []
    else
      var last := |items| - 1;
      var before := Files(items[..last], from);
      if items[last].Image? then before else before + [PreSend(from + |before| + 1, items[last].name)]
  }

  /** The images among the items, in the items' order. */
  function Images(items: seq<Queued>): seq<ComposerImage>
    requires AllRestorable(items)
  {
    if items == [] then []
    else
      var last := |items| - 1;
      Images(items[..last]) + if items[last].Image? then [ComposerImage(items[last].name, items[last].data.value)] else []
  }

  function Ids(files: seq<PreSend>): (r: seq<nat>)
    ensures |r| == |files| && forall i :: 0 <= i < |r| ==> r[i] == files[i].id
  {
    seq(|files|, i requires 0 <= i < |files| => files[i].id)
  }

  lemma NothingRestored(s: State, owner: Owner, clock: nat -> int, ttl: int)
    ensures Restored(s, owner, [], [], clock, ttl) == s && Files([], s.nextId) == [] && Images([]) == []
  {
  }

  lemma RestoreOneMore(s: State, owner: Owner, chat: seq<string>, items: seq<Queued>, i: nat, clock: nat -> int, ttl: int)
    requires |chat| == |items| && i < |items| && AllRestorable(items[..i]) && Restorable(items[i])
    ensures AllRestorable(items[..i + 1])
    ensures var before := Restored(s, owner, chat[..i], items[..i], clock, ttl);
            var files, images := Files(items[..i], s.nextId), Images(items[..i]);
            if items[i].Image? then
              && Restored(s, owner, chat[..i + 1], items[..i + 1], clock, ttl) == before
              && Files(items[..i + 1], s.nextId) == files
              && Images(items[..i + 1]) == images + [ComposerImage(items[i].name, items[i].data.value)]
            else
              && Restored(s, owner, chat[..i + 1], items[..i + 1], clock, ttl)
                 == Register(before, Handle(owner, items[i].name, TargetOf(items[i], chat[i]), clock(i) + ttl), clock(i))
              && Files(items[..i + 1], s.nextId) == files + [PreSend(s.nextId + |files| + 1, items[i].name)]
              && Images(items[..i + 1]) == images
  {
    hide Register;
    assert items[..i + 1][..i] == items[..i] && chat[..i + 1][..i] == chat[..i];
  }

  lemma {:induction false} RestoredNumbers(s: State, owner: Owner, chat: seq<string>, items: seq<Queued>, clock: nat -> int, ttl: int)
    requires |chat| == |items| && AllRestorable(items)
    ensures Restored(s, owner, chat, items, clock, ttl).nextId == s.nextId + |Files(items, s.nextId)|
    decreases |items|
  {
    if items != [] {
      RestoredNumbers(s, owner, chat[..|items| - 1], items[..|items| - 1], clock, ttl);
    }
  }

  // ---------------------------------------------------------------- the object

  datatype RestoreError = Mismatched | NotRestorable(index: nat)

  class AttachmentRuntime {
    var nextId: nat
    var handles: map<nat, Handle>
    var reserved: set<nat>
    const ttl: int

    ghost function Current(): State
      reads this
    {
      State(nextId, handles, reserved)
    }

    constructor (ttl: int)
      ensures Current() == State(0, map[], {}) && this.ttl == ttl
    {
      nextId, handles, reserved := 0, map[], {};
      this.ttl := ttl;
    }

    method PruneExpired(now: int)
      modifies this
      ensures Current() == Prune(old(Current()), now)
    {
      handles := Kept(handles, reserved, now);
      reserved := reserved * handles.Keys;
    }

    method RegisterHandle(owner: Owner, name: string, target: Target, now: int) returns (id: nat)
      modifies this
      ensures Current() == Register(old(Current()), Handle(owner, name, target, now + ttl), now) && id == nextId
    {
      PruneExpired(now);
      nextId := nextId + 1;
      id := nextId;
      handles := handles[id := Handle(owner, name, target, now + ttl)];
    }

    /** Every id is settled in turn, so a repeated one is released once and then a no-op. */
    method ReleaseResources(owner: Owner, ids: seq<nat>, now: int) returns (outcomes: seq<Status>)
      modifies this
      ensures Current() == ReleaseAll(Prune(old(Current()), now), owner, ids)
      ensures |outcomes| == |ids|
      ensures forall i :: 0 <= i < |ids| ==>
                outcomes[i] == ReleaseOne(ReleaseAll(Prune(old(Current()), now), owner, ids[..i]), owner, ids[i]).1
    {
      hide Prune, ReleaseOne, ReleaseAll;
      PruneExpired(now);
      ghost var start := Current();
      outcomes := [];
      NoneReleased(start, owner, ids);
      for i := 0 to |ids|
        invariant Current() == ReleaseAll(start, owner, ids[..i])
        invariant |outcomes| == i
        invariant forall k :: 0 <= k < i ==> outcomes[k] == ReleaseOne(ReleaseAll(start, owner, ids[..k]), owner, ids[k]).1
      {
        ReleaseOneMore(start, owner, ids, i);
        var status := ReleaseHandle(owner, ids[i]);
        outcomes := outcomes + [status];
      }
      assert ids[..|ids|] == ids;
    }

    method ReleaseHandle(owner: Owner, id: nat) returns (status: Status)
      modifies this
      ensures (Current(), status) == ReleaseOne(old(Current()), owner, id)
    {
      if id !in handles {
        return NoOp;
      }
      if handles[id].owner != owner {
        return Forbidden;
      }
      if id in reserved {
        return NoOp;
      }
      handles := handles - {id};
      status := Released;
    }

    /** All the handles are checked before any is reserved. */
    method ReserveForSend(owner: Owner, ids: seq<nat>, now: int, expires: int, resolves: Handle -> bool)
      returns (refusal: Option<Refusal>)
      modifies this
      ensures (Current(), refusal) == Reserve(old(Current()), owner, ids, now, expires, resolves)
    {
      PruneExpired(now);
      refusal := CheckHandles(owner, ids, resolves);
      if refusal.Some? {
        return;
      }
      MarkReserved(ids, expires);
    }

    method CheckHandles(owner: Owner, ids: seq<nat>, resolves: Handle -> bool) returns (refusal: Option<Refusal>)
      ensures refusal == FirstRefusal(Current(), owner, ids, |ids|, resolves)
      ensures refusal.None? ==> forall i :: 0 <= i < |ids| ==> ids[i] in handles
    {
      var seen: set<nat> := {};
      for i := 0 to |ids|
        invariant forall id: nat :: id in seen <==> id in ids[..i]
        invariant FirstRefusal(Current(), owner, ids, i, resolves).None?
        invariant forall k :: 0 <= k < i ==> ids[k] in handles
      {
        var id := ids[i];
        if id in seen {
          refusal := Some(DuplicateHandle);
        } else if id !in handles || id in reserved {
          refusal := Some(UnknownHandle);
        } else if handles[id].owner != owner {
          refusal := Some(if handles[id].owner.task == owner.task then UnknownHandle else WrongTask);
        } else if !resolves(handles[id]) {
          refusal := Some(Unresolved);
        } else {
          refusal := None;
        }
        assert refusal == RefusalAt(Current(), owner, ids, i, resolves);
        if refusal.Some? {
          LaterRefusalsWait(Current(), owner, ids, i + 1, |ids|, resolves);
          return;
        }
        seen := seen + {id};
        assert ids[..i + 1] == ids[..i] + [id];
      }
      refusal := None;
    }

    method MarkReserved(ids: seq<nat>, expires: int)
      requires forall i :: 0 <= i < |ids| ==> ids[i] in handles
      modifies this
      ensures nextId == old(nextId) && handles == Extended(old(handles), Members(ids), expires)
      ensures reserved == old(reserved) + Members(ids)
    {
      for i := 0 to |ids|
        invariant nextId == old(nextId) && handles == Extended(old(handles), Members(ids[..i]), expires)
        invariant reserved == old(reserved) + Members(ids[..i])
      {
        var id := ids[i];
        assert Members(ids[..i + 1]) == Members(ids[..i]) + {id} by {
          assert ids[..i + 1] == ids[..i] + [id];
        }
        handles := handles[id := handles[id].(expiresAt := expires)];
        reserved := reserved + {id};
      }
      assert ids[..|ids|] == ids;
    }

    /** Restores a queued message's attachments; if one cannot be restored, the handles made for the
        others are given back. */
    method RestoreQueued(owner: Owner, chat: seq<string>, items: seq<Queued>, clock: nat -> int)
      returns (files: seq<PreSend>, images: seq<ComposerImage>, error: Option<RestoreError>)
      modifies this
      ensures error.None? <==> |chat| == |items| && AllRestorable(items)
      ensures error.None? ==>
                && Current() == Restored(old(Current()), owner, chat, items, clock, ttl)
                && files == Files(items, old(nextId)) && images == Images(items)
      ensures error == Some(Mismatched) <==> |chat| != |items|
      ensures error == Some(Mismatched) ==> Current() == old(Current())
      ensures error.Some? && error.value.NotRestorable? ==>
                var n := error.value.index;
                && n < |items| == |chat| && !Restorable(items[n]) && AllRestorable(items[..n])
                && Current() == RolledBack(old(Current()), owner, chat[..n], items[..n], clock, ttl, clock(n))
    {
      hide Restored, Files, Images, ReleaseAll, Prune, Ids;
      files, images, error := [], [], None;
      if |chat| != |items| {
        error := Some(Mismatched);
        return;
      }
      var bad;
      files, images, bad := RestoreItems(owner, chat, items, clock);
      if bad < |items| {
        var outcomes := ReleaseResources(owner, Ids(files), clock(bad));
        error := Some(NotRestorable(bad));
      } else {
        assert items[..bad] == items && chat[..bad] == chat;
      }
    }

    /** Restores the items up to the first that cannot be. */
    method RestoreItems(owner: Owner, chat: seq<string>, items: seq<Queued>, clock: nat -> int)
      returns (files: seq<PreSend>, images: seq<ComposerImage>, bad: nat)
      requires |chat| == |items|
      modifies this
      ensures bad <= |items| && AllRestorable(items[..bad]) && (bad < |items| ==> !Restorable(items[bad]))
      ensures Current() == Restored(old(Current()), owner, chat[..bad], items[..bad], clock, ttl)
      ensures files == Files(items[..bad], old(nextId)) && images == Images(items[..bad])
    {
      hide Restored, Files, Images, Register, Prune;
      files, images, bad := [], [], 0;
      ghost var start := Current();
      NothingRestored(start, owner, clock, ttl);
      assert items[..0] == [] && chat[..0] == [];
      while bad < |items| && Restorable(items[bad])
        invariant bad <= |items| && AllRestorable(items[..bad])
        invariant Current() == Restored(start, owner, chat[..bad], items[..bad], clock, ttl)
        invariant files == Files(items[..bad], start.nextId) && images == Images(items[..bad])
      {
        RestoredNumbers(start, owner, chat[..bad], items[..bad], clock, ttl);
        RestoreOneMore(start, owner, chat, items, bad, clock, ttl);
        RegisterNumbers(Current());
        if items[bad].Image? {
          images := images + [ComposerImage(items[bad].name, items[bad].data.value)];
        } else {
          var id := RegisterHandle(owner, items[bad].name, TargetOf(items[bad], chat[bad]), clock(bad));
          files := files + [PreSend(id, items[bad].name)];
        }
        bad := bad + 1;
      }
    }
  }

  lemma RegisterNumbers(s: State)
    ensures forall handle, now :: Register(s, handle, now).nextId == s.nextId + 1
  {
  }

  lemma NoneReleased(s: State, owner: Owner, ids: seq<nat>)
    ensures ReleaseAll(s, owner, ids[..0]) == s
  {
  }

  lemma ReleaseOneMore(s: State, owner: Owner, ids: seq<nat>, i: nat)
    requires i < |ids|
    ensures ReleaseAll(s, owner, ids[..i + 1]) == ReleaseOne(ReleaseAll(s, owner, ids[..i]), owner, ids[i]).0
  {
    hide ReleaseOne;
    assert ids[..i + 1][..i] == ids[..i];
  }

  /** A refusal stands whatever follows it. */
  lemma {:induction false} LaterRefusalsWait(s: State, owner: Owner, ids: seq<nat>, i: nat, n: nat, resolves: Handle -> bool)
    requires i <= n <= |ids| && FirstRefusal(s, owner, ids, i, resolves).Some?
    ensures FirstRefusal(s, owner, ids, n, resolves) == FirstRefusal(s, owner, ids, i, resolves)
    decreases n - i
  {
    if i < n {
      LaterRefusalsWait(s, owner, ids, i, n - 1, resolves);
    }
  }

  // ---------------------------------------------------------------- what a failed restore leaves

  function RolledBack(s: State, owner: Owner, chat: seq<string>, items: seq<Queued>, clock: nat -> int, ttl: int, now: int): State
    requires |chat| == |items| && AllRestorable(items)
  {
    ReleaseAll(Prune(Restored(s, owner, chat, items, clock, ttl), now), owner, Ids(Files(items, s.nextId)))
  }

  /** What a restore has done so far to the handles that were there before. */
  ghost predicate AddsOnly(s: State, t: State, owner: Owner) {
    && s.nextId <= t.nextId && t.reserved == s.reserved
    && forall id :: id in t.handles ==>
         if id <= s.nextId then id in s.handles && t.handles[id] == s.handles[id]
         else id <= t.nextId && t.handles[id].owner == owner
  }

  ghost predicate Consistent(s: State) {
    (forall id :: id in s.handles ==> id <= s.nextId) && forall id :: id in s.reserved ==> id in s.handles
  }

  lemma {:induction false} RestoreAddsOnly(s: State, owner: Owner, chat: seq<string>, items: seq<Queued>, clock: nat -> int, ttl: int)
    requires |chat| == |items| && AllRestorable(items) && Consistent(s)
    ensures AddsOnly(s, Restored(s, owner, chat, items, clock, ttl), owner)
    ensures Consistent(Restored(s, owner, chat, items, clock, ttl))
    decreases |items|
  {
    if items != [] {
      RestoreAddsOnly(s, owner, chat[..|items| - 1], items[..|items| - 1], clock, ttl);
    }
  }

  lemma {:induction false} FilesAreNumbered(items: seq<Queued>, from: nat, id: nat)
    requires from < id <= from + |Files(items, from)|
    ensures id in Ids(Files(items, from))
    decreases |items|
  {
    if items != [] {
      var before := Files(items[..|items| - 1], from);
      if id <= from + |before| {
        FilesAreNumbered(items[..|items| - 1], from, id);
        var k :| 0 <= k < |before| && before[k].id == id;
        assert Files(items, from)[k].id == id;
      } else {
        assert Files(items, from)[|before|].id == id;
      }
      assert forall k :: 0 <= k < |Files(items, from)| ==> Ids(Files(items, from))[k] == Files(items, from)[k].id;
    }
  }

  lemma {:induction false} FilesAreNew(items: seq<Queued>, from: nat, k: nat)
    requires k < |Files(items, from)|
    ensures from < Files(items, from)[k].id
    decreases |items|
  {
    var before := Files(items[..|items| - 1], from);
    if k < |before| {
      FilesAreNew(items[..|items| - 1], from, k);
    }
  }

  lemma {:induction false} ReleaseOnlyRemoves(s: State, owner: Owner, ids: seq<nat>, id: nat)
    ensures var t := ReleaseAll(s, owner, ids);
            && t.nextId == s.nextId && t.reserved == s.reserved
            && (id in t.handles ==> id in s.handles && t.handles[id] == s.handles[id])
            && (id in s.handles && id !in ids ==> id in t.handles)
    decreases |ids|
  {
    if ids != [] {
      ReleaseOnlyRemoves(s, owner, ids[..|ids| - 1], id);
      assert ids == ids[..|ids| - 1] + [ids[|ids| - 1]];
    }
  }

  /** The handle outlasts every instant of the restore. */
  ghost predicate Outlasts(s: State, id: nat, clock: nat -> int, n: nat) {
    id in s.handles && (id in s.reserved || forall i :: 0 <= i < n ==> s.handles[id].expiresAt > clock(i))
  }

  lemma {:induction false} RestoreKeeps(s: State, owner: Owner, chat: seq<string>, items: seq<Queued>, clock: nat -> int, ttl: int, id: nat)
    requires |chat| == |items| && AllRestorable(items) && Consistent(s) && Outlasts(s, id, clock, |items|)
    ensures id in Restored(s, owner, chat, items, clock, ttl).handles
    decreases |items|
  {
    if items != [] {
      var last := |items| - 1;
      RestoreKeeps(s, owner, chat[..last], items[..last], clock, ttl, id);
      RestoreAddsOnly(s, owner, chat[..last], items[..last], clock, ttl);
      RestoredNumbers(s, owner, chat[..last], items[..last], clock, ttl);
      hide Restored, Files;
      KeptByRegister(s, Restored(s, owner, chat[..last], items[..last], clock, ttl), owner, id, clock, last, |items|);
      RestoredUnfolds(s, owner, chat, items, clock, ttl);
    }
  }

  lemma RestoredUnfolds(s: State, owner: Owner, chat: seq<string>, items: seq<Queued>, clock: nat -> int, ttl: int)
    requires |chat| == |items| > 0 && AllRestorable(items)
    ensures var last := |items| - 1;
            var before := Restored(s, owner, chat[..last], items[..last], clock, ttl);
            Restored(s, owner, chat, items, clock, ttl) == before
            || exists handle :: Restored(s, owner, chat, items, clock, ttl) == Register(before, handle, clock(last))
  {
  }

  lemma KeptByRegister(s: State, before: State, owner: Owner, id: nat, clock: nat -> int, last: nat, n: nat)
    requires Consistent(s) && AddsOnly(s, before, owner) && id in before.handles && Outlasts(s, id, clock, n) && last < n
    ensures forall handle :: id in Register(before, handle, clock(last)).handles
  {
  }

  /** A restore that fails leaves the runtime's handles and reservations as they were: nothing it made
      remains, and nothing older is lost but what expired meanwhile. */
  lemma FailedRestoreLeavesNothing(s: State, owner: Owner, chat: seq<string>, items: seq<Queued>, clock: nat -> int, ttl: int, id: nat)
    requires |chat| == |items| && AllRestorable(items) && Consistent(s)
    ensures var t := RolledBack(s, owner, chat, items, clock, ttl, clock(|items|));
            && t.reserved == s.reserved
            && (id in t.handles ==> id in s.handles && t.handles[id] == s.handles[id])
            && (Outlasts(s, id, clock, |items| + 1) ==> id in t.handles)
  {
    var r := Restored(s, owner, chat, items, clock, ttl);
    var now := clock(|items|);
    var p := Prune(r, now);
    var ids := Ids(Files(items, s.nextId));
    RestoreAddsOnly(s, owner, chat, items, clock, ttl);
    RestoredNumbers(s, owner, chat, items, clock, ttl);
    ReleaseOnlyRemoves(p, owner, ids, id);
    if id in ReleaseAll(p, owner, ids).handles && id > s.nextId {
      FilesAreNumbered(items, s.nextId, id);
      ReleasedAreGone(p, owner, ids, id);
      hide ReleaseAll, Restored, Files;
      assert false;
    }
    if Outlasts(s, id, clock, |items| + 1) {
      RestoreKeeps(s, owner, chat, items, clock, ttl, id);
      if id in ids {
        var k :| 0 <= k < |ids| && ids[k] == id;
        FilesAreNew(items, s.nextId, k);
        assert false;
      }
    }
  }

  /** From any reachable state, whatever sends are open. */
  lemma FailedRestoreFromReachable(steps: seq<Step>, n: nat, owner: Owner, chat: seq<string>, items: seq<Queued>,
                                   clock: nat -> int, ttl: int, id: nat)
    requires n <= |steps| && |chat| == |items| && AllRestorable(items)
    ensures var s := After(steps, n).state;
            var t := RolledBack(s, owner, chat, items, clock, ttl, clock(|items|));
            && t.reserved == s.reserved
            && (id in t.handles ==> id in s.handles && t.handles[id] == s.handles[id])
            && (Outlasts(s, id, clock, |items| + 1) ==> id in t.handles)
  {
    hide After, RolledBack, Outlasts;
    ReachableIsConsistent(steps, n);
    FailedRestoreLeavesNothing(After(steps, n).state, owner, chat, items, clock, ttl, id);
  }

  lemma ReachableIsConsistent(steps: seq<Step>, n: nat)
    requires n <= |steps|
    ensures Consistent(After(steps, n).state)
  {
    hide After, Held;
    EveryReservationIsLive(steps, n);
  }

  // ---------------------------------------------------------------- what a restore brings back

  /** A record with its data, a file still inside the workspace and any snapshot can be restored. */
  lemma IntactIsRestorable(items: seq<Queued>)
    requires forall i :: 0 <= i < |items| ==>
                           && (items[i].Image? ==> items[i].data.Some?)
                           && (items[i].File? ==> items[i].path.Some? && items[i].inside)
    ensures AllRestorable(items)
  {
  }

  lemma OneMoreFile(items: seq<Queued>, n: nat, from: nat)
    requires n < |items|
    ensures Files(items[..n + 1], from)
            == Files(items[..n], from)
               + if items[n].Image? then [] else [PreSend(from + |Files(items[..n], from)| + 1, items[n].name)]
    ensures AllRestorable(items) ==>
              Images(items[..n + 1])
              == Images(items[..n]) + if items[n].Image? then [ComposerImage(items[n].name, items[n].data.value)] else []
  {
    assert items[..n + 1][..n] == items[..n];
  }

  lemma {:induction false} ListedInOrder(items: seq<Queued>, i: nat, n: nat, from: nat)
    requires i < n <= |items| && AllRestorable(items)
    ensures var files, images, k, l := Files(items[..n], from), Images(items[..n]), |Files(items[..i], from)|, |Images(items[..i])|;
            && |files| + |images| == n && k + l == i
            && (if items[i].Image? then l < |images| && images[l] == ComposerImage(items[i].name, items[i].data.value)
                else k < |files| && files[k] == PreSend(from + k + 1, items[i].name))
    decreases n
  {
    hide Files, Images;
    OneMoreFile(items, n - 1, from);
    if i < n - 1 {
      ListedInOrder(items, i, n - 1, from);
    } else {
      SizesAdd(items, i, from);
    }
  }

  lemma {:induction false} SizesAdd(items: seq<Queued>, n: nat, from: nat)
    requires n <= |items| && AllRestorable(items)
    ensures |Files(items[..n], from)| + |Images(items[..n])| == n
  {
    if n > 0 {
      SizesAdd(items, n - 1, from);
      OneMoreFile(items, n - 1, from);
    }
  }

  /** What a restored item stands for. */
  function Meant(q: Queued, chat: string): Target
    requires Restorable(q) && !q.Image?
  {
    match q
    case File(_, path, _) => FileReference(path.value)
    case Snapshot(_, agent) => QueuedSnapshot(chat, agent)
  }

  lemma {:induction false} RestoredHandleStays(s: State, owner: Owner, chat: seq<string>, items: seq<Queued>, clock: nat -> int,
                                               ttl: int, i: nat, n: nat)
    requires |chat| == |items| && AllRestorable(items) && i < n <= |items| && !items[i].Image?
    requires forall j :: i < j < n ==> clock(j) < clock(i) + ttl
    ensures var t, id := Restored(s, owner, chat[..n], items[..n], clock, ttl), s.nextId + |Files(items[..i], s.nextId)| + 1;
            && id <= t.nextId && id in t.handles
            && t.handles[id] == Handle(owner, items[i].name, Meant(items[i], chat[i]), clock(i) + ttl)
    decreases n
  {
    hide Restored, Files, Images;
    RestoreOneMore(s, owner, chat, items, n - 1, clock, ttl);
    RestoredNumbers(s, owner, chat[..n - 1], items[..n - 1], clock, ttl);
    if i < n - 1 {
      RestoredHandleStays(s, owner, chat, items, clock, ttl, i, n - 1);
    }
  }

  /** A restored message comes back whole and in order: every image as it was, and for every other item a
      handle of the owner that stands for what the item stood for, under consecutive new numbers. */
  lemma RestoreBringsEverythingBack(s: State, owner: Owner, chat: seq<string>, items: seq<Queued>, clock: nat -> int, ttl: int, i: nat)
    requires |chat| == |items| && AllRestorable(items) && i < |items|
    requires forall j :: i < j < |items| ==> clock(j) < clock(i) + ttl
    ensures var files, images := Files(items, s.nextId), Images(items);
            var k, l := |Files(items[..i], s.nextId)|, |Images(items[..i])|;
            && |files| + |images| == |items| && k + l == i
            && (if items[i].Image? then l < |images| && images[l] == ComposerImage(items[i].name, items[i].data.value)
                else
                  && k < |files| && files[k] == PreSend(s.nextId + k + 1, items[i].name)
                  && var t := Restored(s, owner, chat, items, clock, ttl);
                     files[k].id in t.handles
                     && t.handles[files[k].id] == Handle(owner, items[i].name, Meant(items[i], chat[i]), clock(i) + ttl))
  {
    hide Restored, Files, Images;
    assert items[..|items|] == items && chat[..|chat|] == chat;
    ListedInOrder(items, i, |items|, s.nextId);
    if !items[i].Image? {
      RestoredHandleStays(s, owner, chat, items, clock, ttl, i, |items|);
    }
  }

  // ---------------------------------------------------------------- images sent inline

  const MESSAGE_IMAGE_BYTES: nat := 8 * 1024 * 1024

  /** What decoding an image found; one over 5 MiB is too large by itself. */
  datatype Checked = Valid(bytes: nat) | InvalidImage | TooLarge

  function Total(images: seq<Checked>): nat {
    if images == [] then 0
    else Total(images[..|images| - 1]) + if images[|images| - 1].Valid? then images[|images| - 1].bytes else 0
  }

  lemma {:induction false} TotalsGrow(images: seq<Checked>, i: nat)
    requires i <= |images|
    ensures Total(images[..i]) <= Total(images)
    decreases |images| - i
  {
    if i == |images| {
      assert images[..i] == images;
    } else {
      TotalsGrow(images, i + 1);
      assert images[..i + 1][..i] == images[..i];
    }
  }

  /** The images of a message are accepted exactly when each is valid and together they fit. */
  method AcceptInlineImages(images: seq<Checked>) returns (refusal: Option<Checked>)
    ensures refusal.None?
            <==> (forall i :: 0 <= i < |images| ==> images[i].Valid?) && Total(images) <= 8_388_608
    ensures refusal.Some? ==> refusal.value == TooLarge || refusal.value == InvalidImage
    ensures refusal == Some(InvalidImage) ==> InvalidImage in images
  {
    var total := 0;
    for i := 0 to |images|
      invariant total == Total(images[..i]) && total <= MESSAGE_IMAGE_BYTES
      invariant forall k :: 0 <= k < i ==> images[k].Valid?
    {
      if !images[i].Valid? {
        return Some(images[i]);
      }
      assert images[..i + 1][..i] == images[..i];
      total := total + images[i].bytes;
      if total > MESSAGE_IMAGE_BYTES {
        TotalsGrow(images, i + 1);
        return Some(TooLarge);
      }
    }
    assert images[..|images|] == images;
    refusal := None;
  }
}
