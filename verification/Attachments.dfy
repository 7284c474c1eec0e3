/**
 Attachments before a message is sent (attachment_runtime.rs and its handles and reservation
 modules): numbered handles that expire when abandoned, and reservations that hold them for a send.
 */
module Attachments {
  import opened Prelude

  datatype Owner = Owner(client: ClientId, task: TaskId)

  datatype Target =
    | FileReference(path: string)
    | EmbeddedSnapshot(path: string)
    | PastedImage(data: string)
    | QueuedSnapshot(chat: string, agent: string)

  datatype Handle = Handle(owner: Owner, name: string, target: Target, expiresAt: int)

  datatype State = State(nextId: nat, handles: map<nat, Handle>, reserved: set<nat>)

  datatype Refusal = DuplicateHandle | UnknownHandle | WrongTask | Unresolved

  // ---------------------------------------------------------------- one call, as a function

  function Kept(handles: map<nat, Handle>, reserved: set<nat>, now: int): map<nat, Handle> {
    map id | id in handles && (handles[id].expiresAt > now || id in reserved) :: handles[id]
  }

  /** Abandoned handles go; reservations of handles that are gone go with them. */
  function Prune(s: State, now: int): State {
    var kept := Kept(s.handles, s.reserved, now);
    State(s.nextId, kept, s.reserved * kept.Keys)
  }

  /** A new handle, under the next number. */
  function Register(s: State, handle: Handle, now: int): State {
    var p := Prune(s, now);
    State(p.nextId + 1, p.handles[p.nextId + 1 := handle], p.reserved)
  }

  datatype Status = Released | NoOp | Forbidden

  function ReleaseOne(s: State, owner: Owner, id: nat): (State, Status) {
    if id !in s.handles then (s, NoOp)
    else if s.handles[id].owner != owner then (s, Forbidden)
    else if id in s.reserved then (s, NoOp)
    else (s.(handles := s.handles - {id}), Released)
  }

  function ReleaseAll(s: State, owner: Owner, ids: seq<nat>): State {
    if ids == [] then s else ReleaseOne(ReleaseAll(s, owner, ids[..|ids| - 1]), owner, ids[|ids| - 1]).0
  }

  /** Why the `i`-th requested handle cannot be used, if it cannot. */
  function RefusalAt(s: State, owner: Owner, ids: seq<nat>, i: nat, resolves: Handle -> bool): Option<Refusal>
    requires i < |ids|
  {
    var id := ids[i];
    if id in ids[..i] then Some(DuplicateHandle)
    else if id !in s.handles || id in s.reserved then Some(UnknownHandle)
    else if s.handles[id].owner != owner then Some(if s.handles[id].owner.task == owner.task then UnknownHandle else WrongTask)
    else if !resolves(s.handles[id]) then Some(Unresolved)
    else None
  }

  /** The first refusal among the first `n`. */
  function FirstRefusal(s: State, owner: Owner, ids: seq<nat>, n: nat, resolves: Handle -> bool): Option<Refusal>
    requires n <= |ids|
  {
    if n == 0 then None
    else
      var earlier := FirstRefusal(s, owner, ids, n - 1, resolves);
      if earlier.Some? then earlier else RefusalAt(s, owner, ids, n - 1, resolves)
  }

  function Members(ids: seq<nat>): set<nat> {
    set id | id in ids
  }

  function Extended(handles: map<nat, Handle>, ids: set<nat>, expires: int): map<nat, Handle> {
    map id | id in handles :: if id in ids then handles[id].(expiresAt := expires) else handles[id]
  }

  function Reserve(s: State, owner: Owner, ids: seq<nat>, now: int, expires: int, resolves: Handle -> bool): (State, Option<Refusal>) {
    var p := Prune(s, now);
    var refusal := FirstRefusal(p, owner, ids, |ids|, resolves);
    if refusal.Some? then (p, refusal)
    else (State(p.nextId, Extended(p.handles, Members(ids), expires), p.reserved + Members(ids)), None)
  }

  function AnyTarget(): Handle -> bool {
    (h: Handle) => true
  }

  function Refresh(s: State, owner: Owner, ids: seq<nat>, now: int, expires: int): (State, Option<Refusal>) {
    var p := Prune(s, now);
    var refusal := FirstRefusal(p, owner, ids, |ids|, AnyTarget());
    if refusal.Some? then (p, refusal) else (p.(handles := Extended(p.handles, Members(ids), expires)), None)
  }

  /** A send that went out takes its handles with it; one that did not gives them back. */
  function Commit(s: State, ids: set<nat>): State {
    State(s.nextId, s.handles - ids, s.reserved - ids)
  }

  function Abandon(s: State, ids: set<nat>): State {
    s.(reserved := s.reserved - ids)
  }

  function OfClient(handles: map<nat, Handle>, client: ClientId): set<nat> {
    set id | id in handles && handles[id].owner.client == client
  }

  function OfTask(handles: map<nat, Handle>, task: TaskId): set<nat> {
    set id | id in handles && handles[id].owner.task == task
  }

  function KeepAlive(s: State, client: ClientId, now: int, expires: int): State {
    Prune(s.(handles := Extended(s.handles, OfClient(s.handles, client), expires)), now)
  }

  /** The handles go, whether reserved or not. */
  function Discard(s: State, ids: set<nat>): State {
    var left := s.handles - ids;
    State(s.nextId, left, s.reserved * left.Keys)
  }

  // ---------------------------------------------------------------- every state is sound

  /** A state with the reservations still open, by the number each was made under; a settled
      reservation holds nothing. */
  datatype World = World(state: State, open: seq<set<nat>>)

  datatype Step =
    | Registers(handle: Handle, now: int)
    | Releases(owner: Owner, ids: seq<nat>, now: int)
    | Reserves(owner: Owner, ids: seq<nat>, now: int, expires: int, resolves: Handle -> bool)
    | Refreshes(owner: Owner, ids: seq<nat>, now: int, expires: int)
    | Commits(reservation: nat)
    | Abandons(reservation: nat)
    | KeepsAlive(client: ClientId, now: int, expires: int)
    | LosesClient(client: ClientId)
    | LosesTask(task: TaskId)
    | Looks(now: int)

  function Next(w: World, step: Step): World {
    var s := w.state;
    match step
    case Registers(handle, now) => w.(state := Register(s, handle, now))
    case Releases(owner, ids, now) => w.(state := ReleaseAll(Prune(s, now), owner, ids))
    case Reserves(owner, ids, now, expires, resolves) =>
      var (next, refusal) := Reserve(s, owner, ids, now, expires, resolves);
      World(next, if refusal.None? then w.open + [Members(ids)] else w.open)
    case Refreshes(owner, ids, now, expires) => w.(state := Refresh(s, owner, ids, now, expires).0)
    case Commits(k) => if k < |w.open| then World(Commit(s, w.open[k]), w.open[k := {}]) else w
    case Abandons(k) => if k < |w.open| then World(Abandon(s, w.open[k]), w.open[k := {}]) else w
    case KeepsAlive(client, now, expires) => w.(state := KeepAlive(s, client, now, expires))
    case LosesClient(client) => w.(state := Discard(s, OfClient(s.handles, client)))
    case LosesTask(task) => w.(state := Discard(s, OfTask(s.handles, task)))
    case Looks(now) => w.(state := Prune(s, now))
  }

  function After(steps: seq<Step>, n: nat): World
    requires n <= |steps|
  {
    if n == 0 then World(State(0, map[], {}), []) else Next(After(steps, n - 1), steps[n - 1])
  }

  predicate Held(open: seq<set<nat>>, id: nat) {
    exists k :: 0 <= k < |open| && id in open[k]
  }

  /** Numbers in use were issued. */
  ghost predicate Issued(s: State, open: seq<set<nat>>) {
    && (forall id :: id in s.handles ==> id <= s.nextId)
    && (forall id: nat :: Held(open, id) ==> id <= s.nextId)
  }

  /** No handle is held by two sends. */
  predicate Apart(open: seq<set<nat>>) {
    forall k, l, id :: 0 <= k < l < |open| && id in open[k] ==> id !in open[l]
  }

  /** Reserved means live and held by an open reservation. */
  ghost predicate ReservedIsHeld(s: State, open: seq<set<nat>>) {
    forall id: nat :: id in s.reserved <==> id in s.handles && Held(open, id)
  }

  ghost predicate Sound(w: World) {
    Issued(w.state, w.open) && Apart(w.open) && ReservedIsHeld(w.state, w.open)
  }

  /** Pruning takes exactly the expired handles nobody reserved, and no reservation. */
  lemma PruneIsExact(s: State, open: seq<set<nat>>, now: int, id: nat)
    requires ReservedIsHeld(s, open)
    ensures id in s.handles && id !in Prune(s, now).handles
            <==> id in s.handles && s.handles[id].expiresAt <= now && !Held(open, id)
    ensures id in Prune(s, now).handles ==> id in s.handles && Prune(s, now).handles[id] == s.handles[id]
    ensures Prune(s, now).reserved == s.reserved
  {
    hide Held;
  }

  lemma PruneKeepsSound(w: World, now: int)
    requires Sound(w)
    ensures Sound(w.(state := Prune(w.state, now)))
  {
    hide Held, Apart;
  }

  lemma ExtendedKeepsSound(w: World, ids: set<nat>, expires: int)
    requires Sound(w)
    ensures Sound(w.(state := w.state.(handles := Extended(w.state.handles, ids, expires))))
  {
    hide Held, Apart;
  }

  lemma RegisterKeepsSound(w: World, handle: Handle, now: int)
    requires Sound(w)
    ensures Sound(w.(state := Register(w.state, handle, now)))
  {
    hide Held, Apart;
    PruneKeepsSound(w, now);
    hide Kept;
  }

  lemma ReleaseOneKeepsSound(w: World, owner: Owner, id: nat)
    requires Sound(w)
    ensures Sound(w.(state := ReleaseOne(w.state, owner, id).0))
  {
    hide Held, Apart;
  }

  lemma {:induction false} ReleaseKeepsSound(w: World, owner: Owner, ids: seq<nat>)
    requires Sound(w)
    ensures Sound(w.(state := ReleaseAll(w.state, owner, ids)))
    decreases |ids|
  {
    hide Sound, ReleaseOne;
    if ids == [] {
      assert w.(state := ReleaseAll(w.state, owner, ids)) == w;
    } else {
      ReleaseKeepsSound(w, owner, ids[..|ids| - 1]);
      ReleaseOneKeepsSound(w.(state := ReleaseAll(w.state, owner, ids[..|ids| - 1])), owner, ids[|ids| - 1]);
    }
  }

  /** A request is accepted exactly when it names usable handles of its owner, each once. */
  lemma {:induction false} AcceptedExactlyWhenUsable(s: State, owner: Owner, ids: seq<nat>, n: nat, resolves: Handle -> bool)
    requires n <= |ids|
    ensures FirstRefusal(s, owner, ids, n, resolves).None?
            <==> && Distinct(ids[..n])
                 && forall i :: 0 <= i < n ==>
                   && ids[i] in s.handles && ids[i] !in s.reserved
                   && s.handles[ids[i]].owner == owner && resolves(s.handles[ids[i]])
  {
    if n > 0 {
      AcceptedExactlyWhenUsable(s, owner, ids, n - 1, resolves);
      DistinctOneMore(ids, n - 1);
    }
  }

  lemma DistinctOneMore(ids: seq<nat>, i: nat)
    requires i < |ids|
    ensures Distinct(ids[..i + 1]) <==> Distinct(ids[..i]) && ids[i] !in ids[..i]
  {
    assert ids[..i + 1] == ids[..i] + [ids[i]];
    if Distinct(ids[..i + 1]) {
      assert forall j :: 0 <= j < i ==> ids[..i][j] == ids[..i + 1][j];
      assert ids[..i + 1][i] == ids[i];
    }
  }

  lemma HoldMore(open: seq<set<nat>>, ids: set<nat>, id: nat)
    ensures Held(open + [ids], id) <==> Held(open, id) || id in ids
  {
    if Held(open, id) {
      var k :| 0 <= k < |open| && id in open[k];
      assert (open + [ids])[k] == open[k];
    }
    if id in ids {
      assert (open + [ids])[|open|] == ids;
    }
  }

  lemma HoldLess(open: seq<set<nat>>, k: nat, id: nat)
    requires k < |open| && Apart(open)
    ensures Held(open[k := {}], id) <==> Held(open, id) && id !in open[k]
  {
    if Held(open, id) && id !in open[k] {
      var l :| 0 <= l < |open| && id in open[l];
      assert open[k := {}][l] == open[l];
    }
  }

  lemma ApartMore(open: seq<set<nat>>, ids: set<nat>)
    requires Apart(open) && forall id :: id in ids ==> !Held(open, id)
    ensures Apart(open + [ids])
  {
  }

  lemma ReserveKeepsSound(w: World, ids: set<nat>)
    requires Sound(w) && forall id :: id in ids ==> id in w.state.handles && id !in w.state.reserved
    ensures Sound(World(w.state.(reserved := w.state.reserved + ids), w.open + [ids]))
  {
    ApartMore(w.open, ids);
    hide Held, Apart;
    forall id
      ensures Held(w.open + [ids], id) <==> Held(w.open, id) || id in ids
    {
      HoldMore(w.open, ids, id);
    }
  }

  lemma SettleKeepsSound(w: World, k: nat, s: State)
    requires Sound(w) && k < |w.open|
    requires s == Commit(w.state, w.open[k]) || s == Abandon(w.state, w.open[k])
    ensures Sound(World(s, w.open[k := {}]))
  {
    forall id
      ensures Held(w.open[k := {}], id) <==> Held(w.open, id) && id !in w.open[k]
    {
      HoldLess(w.open, k, id);
    }
    assert Apart(w.open[k := {}]);
    hide Held, Apart;
  }

  lemma DiscardKeepsSound(w: World, ids: set<nat>)
    requires Sound(w)
    ensures Sound(w.(state := Discard(w.state, ids)))
  {
    hide Held, Apart;
  }

  lemma ReservingKeepsSound(w: World, owner: Owner, ids: seq<nat>, now: int, expires: int, resolves: Handle -> bool)
    requires Sound(w)
    ensures Sound(Next(w, Reserves(owner, ids, now, expires, resolves)))
  {
    hide Sound, Prune;
    PruneKeepsSound(w, now);
    var p := w.(state := Prune(w.state, now));
    if FirstRefusal(p.state, owner, ids, |ids|, resolves).None? {
      AcceptedExactlyWhenUsable(p.state, owner, ids, |ids|, resolves);
      var t := p.state.(handles := Extended(p.state.handles, Members(ids), expires));
      ExtendedKeepsSound(p, Members(ids), expires);
      ReserveKeepsSound(p.(state := t), Members(ids));
    }
  }

  lemma StepKeepsSound(w: World, step: Step)
    requires Sound(w)
    ensures Sound(Next(w, step))
  {
    hide Sound, Prune, Extended, FirstRefusal, Register, ReleaseAll, Commit, Abandon, Discard;
    match step
    case Registers(handle, now) => RegisterKeepsSound(w, handle, now);
    case Releases(owner, ids, now) =>
      PruneKeepsSound(w, now);
      ReleaseKeepsSound(w.(state := Prune(w.state, now)), owner, ids);
    case Reserves(owner, ids, now, expires, resolves) => ReservingKeepsSound(w, owner, ids, now, expires, resolves);
    case Refreshes(owner, ids, now, expires) =>
      PruneKeepsSound(w, now);
      ExtendedKeepsSound(w.(state := Prune(w.state, now)), Members(ids), expires);
    case Commits(k) =>
      if k < |w.open| {
        SettleKeepsSound(w, k, Commit(w.state, w.open[k]));
      }
    case Abandons(k) =>
      if k < |w.open| {
        SettleKeepsSound(w, k, Abandon(w.state, w.open[k]));
      }
    case KeepsAlive(client, now, expires) =>
      ExtendedKeepsSound(w, OfClient(w.state.handles, client), expires);
      PruneKeepsSound(w.(state := w.state.(handles := Extended(w.state.handles, OfClient(w.state.handles, client), expires))), now);
    case LosesClient(client) => DiscardKeepsSound(w, OfClient(w.state.handles, client));
    case LosesTask(task) => DiscardKeepsSound(w, OfTask(w.state.handles, task));
    case Looks(now) => PruneKeepsSound(w, now);
  }

  lemma EmptyIsSound()
    ensures Sound(World(State(0, map[], {}), []))
  {
  }

  /** In every reachable state a handle is reserved exactly when it is live and one open reservation,
      and only one, holds it. */
  lemma {:induction false} EveryReservationIsLive(steps: seq<Step>, n: nat)
    requires n <= |steps|
    ensures Sound(After(steps, n))
  {
    hide Sound, Next;
    if n == 0 {
      EmptyIsSound();
    } else {
      EveryReservationIsLive(steps, n - 1);
      StepKeepsSound(After(steps, n - 1), steps[n - 1]);
    }
  }

  // ---------------------------------------------------------------- handles only fade

  predicate SameButExpiry(a: Handle, b: Handle) {
    a == b.(expiresAt := a.expiresAt)
  }

  /** What an earlier state allows of a later one: numbers go up, and an old number still in use
      names the same thing. */
  ghost predicate Fades(s: State, t: State) {
    && s.nextId <= t.nextId
    && forall id :: id in t.handles && id <= s.nextId ==> id in s.handles && SameButExpiry(t.handles[id], s.handles[id])
  }

  lemma FadesOn(r: State, s: State, t: State)
    requires Fades(r, s) && Fades(s, t)
    ensures Fades(r, t)
  {
  }

  lemma FadesAtOnce(s: State)
    ensures Fades(s, s)
  {
  }

  lemma PruneFades(s: State, now: int)
    ensures Fades(s, Prune(s, now))
  {
  }

  lemma ExtendedFades(s: State, ids: set<nat>, expires: int)
    ensures Fades(s, s.(handles := Extended(s.handles, ids, expires)))
  {
  }

  lemma {:induction false} ReleaseFades(s: State, owner: Owner, ids: seq<nat>)
    ensures Fades(s, ReleaseAll(s, owner, ids))
    decreases |ids|
  {
    if ids != [] {
      ReleaseFades(s, owner, ids[..|ids| - 1]);
    }
  }

  lemma ReserveFades(s: State, owner: Owner, ids: seq<nat>, now: int, expires: int, resolves: Handle -> bool)
    ensures Fades(s, Reserve(s, owner, ids, now, expires, resolves).0)
    ensures Fades(s, Refresh(s, owner, ids, now, expires).0)
  {
    PruneFades(s, now);
    ExtendedFades(Prune(s, now), Members(ids), expires);
    hide Prune, Extended, FirstRefusal;
  }

  lemma StepFades(w: World, step: Step)
    ensures Fades(w.state, Next(w, step).state)
  {
    hide Prune, Extended, FirstRefusal, ReleaseAll, Reserve, Refresh, Fades;
    match step
    case Registers(handle, now) => RegisterFades(w.state, handle, now);
    case Releases(owner, ids, now) =>
      PruneFades(w.state, now);
      ReleaseFades(Prune(w.state, now), owner, ids);
      FadesOn(w.state, Prune(w.state, now), ReleaseAll(Prune(w.state, now), owner, ids));
    case Reserves(owner, ids, now, expires, resolves) => ReserveFades(w.state, owner, ids, now, expires, resolves);
    case Refreshes(owner, ids, now, expires) => ReserveFades(w.state, owner, ids, now, expires, AnyTarget());
    case KeepsAlive(client, now, expires) =>
      var mine := OfClient(w.state.handles, client);
      var alive := w.state.(handles := Extended(w.state.handles, mine, expires));
      ExtendedFades(w.state, mine, expires);
      PruneFades(alive, now);
      FadesOn(w.state, alive, Prune(alive, now));
    case Looks(now) => PruneFades(w.state, now);
    case _ => DroppingFades(w, step);
  }

  lemma RegisterFades(s: State, handle: Handle, now: int)
    ensures Fades(s, Register(s, handle, now))
  {
    PruneFades(s, now);
    hide Kept;
  }

  lemma DroppingFades(w: World, step: Step)
    requires step.Commits? || step.Abandons? || step.LosesClient? || step.LosesTask?
    ensures Fades(w.state, Next(w, step).state)
  {
  }

  /** A number is never issued twice: whatever later state still knows a handle knows it as the
      same attachment of the same owner, and a handle that is gone stays gone. */
  lemma {:induction false} NumbersAreNeverReissued(steps: seq<Step>, i: nat, n: nat)
    requires i <= n <= |steps|
    ensures Fades(After(steps, i).state, After(steps, n).state)
    decreases n - i
  {
    hide Next, Fades;
    if i == n {
      FadesAtOnce(After(steps, i).state);
    } else {
      NumbersAreNeverReissued(steps, i, n - 1);
      StepFades(After(steps, n - 1), steps[n - 1]);
      FadesOn(After(steps, i).state, After(steps, n - 1).state, After(steps, n).state);
    }
  }

  /** Once a send takes its handles they are gone for good, so nothing is sent twice. */
  lemma SentIsSpent(steps: seq<Step>, i: nat, n: nat, id: nat)
    requires i < n <= |steps| && steps[i].Commits? && steps[i].reservation < |After(steps, i).open|
    requires id in After(steps, i).open[steps[i].reservation]
    ensures id !in After(steps, n).state.handles
  {
    hide Apart, ReservedIsHeld, Fades;
    EveryReservationIsLive(steps, i);
    NumbersAreNeverReissued(steps, i + 1, n);
    assert Held(After(steps, i).open, id);
    GoneStaysGone(After(steps, i + 1).state, After(steps, n).state, id);
  }

  lemma GoneStaysGone(s: State, t: State, id: nat)
    requires Fades(s, t) && id <= s.nextId && id !in s.handles
    ensures id !in t.handles
  {
  }

  /** The steps that may take a reserved handle: its own send, or its owner going away. */
  predicate MayTakeReserved(w: World, step: Step, id: nat)
    requires id in w.state.handles
  {
    match step
    case Commits(k) => k < |w.open| && id in w.open[k]
    case LosesClient(client) => w.state.handles[id].owner.client == client
    case LosesTask(task) => w.state.handles[id].owner.task == task
    case _ => false
  }

  lemma {:induction false} ReleaseSparesReserved(s: State, owner: Owner, ids: seq<nat>, id: nat)
    requires id in s.reserved && id in s.handles
    ensures id in ReleaseAll(s, owner, ids).handles && ReleaseAll(s, owner, ids).reserved == s.reserved
    decreases |ids|
  {
    if ids != [] {
      ReleaseSparesReserved(s, owner, ids[..|ids| - 1], id);
    }
  }

  /** A reserved handle outlives every other call, however late it is. */
  lemma ReservedHandleIsTakenExactlyBy(w: World, step: Step, id: nat)
    requires Sound(w) && id in w.state.reserved
    ensures id in w.state.handles
    ensures id !in Next(w, step).state.handles <==> MayTakeReserved(w, step, id)
  {
    hide Held, Apart, FirstRefusal;
    if step.Releases? {
      var p := Prune(w.state, step.now);
      ReleaseSparesReserved(p, step.owner, step.ids, id);
    }
  }

  // ---------------------------------------------------------------- how long any handle lives

  lemma {:induction false} ReleaseTakesExactly(s: State, owner: Owner, ids: seq<nat>, id: nat)
    requires id in s.handles
    ensures var t := ReleaseAll(s, owner, ids);
            && (id !in t.handles <==> id in ids && s.handles[id].owner == owner && id !in s.reserved)
            && (id in t.handles ==> t.handles[id] == s.handles[id]) && t.reserved == s.reserved && t.nextId == s.nextId
    decreases |ids|
  {
    if ids != [] {
      var front := ids[..|ids| - 1];
      ReleaseTakesExactly(s, owner, front, id);
      assert id in ids <==> id in front || id == ids[|ids| - 1];
    }
  }

  /** The step takes the handle: its send, its owner going away, its owner letting it go, or, unless a
      send has reserved it, any call that looks at the handles once its time is up. */
  predicate MayTake(w: World, step: Step, id: nat)
    requires id in w.state.handles
  {
    var h, free := w.state.handles[id], id !in w.state.reserved;
    match step
    case Registers(_, now) => free && h.expiresAt <= now
    case Releases(owner, ids, now) => free && (h.expiresAt <= now || (h.owner == owner && id in ids))
    case Reserves(_, _, now, _, _) => free && h.expiresAt <= now
    case Refreshes(_, _, now, _) => free && h.expiresAt <= now
    case Commits(k) => k < |w.open| && id in w.open[k]
    case Abandons(_) => false
    case KeepsAlive(client, now, expires) => free && (if h.owner.client == client then expires else h.expiresAt) <= now
    case LosesClient(client) => h.owner.client == client
    case LosesTask(task) => h.owner.task == task
    case Looks(now) => free && h.expiresAt <= now
  }

  lemma KeptExactly(s: State, now: int, id: nat)
    requires id in s.handles
    ensures id in Prune(s, now).handles <==> id in s.reserved || s.handles[id].expiresAt > now
    ensures id in Prune(s, now).handles ==> Prune(s, now).handles[id] == s.handles[id]
    ensures id in s.reserved ==> id in Prune(s, now).reserved
    ensures id !in s.reserved ==> id !in Prune(s, now).reserved
    ensures Prune(s, now).nextId == s.nextId
  {
  }

  lemma ExtendedExactly(handles: map<nat, Handle>, ids: set<nat>, expires: int, id: nat)
    requires id in handles
    ensures id in Extended(handles, ids, expires)
    ensures Extended(handles, ids, expires)[id]
            == handles[id].(expiresAt := if id in ids then expires else handles[id].expiresAt)
  {
  }

  /** Every handle, in every reachable state, is taken by exactly the steps that may take it. */
  lemma HandleIsTakenExactlyBy(w: World, step: Step, id: nat)
    requires Sound(w) && id in w.state.handles
    ensures id !in Next(w, step).state.handles <==> MayTake(w, step, id)
  {
    hide Held, Apart, FirstRefusal, Kept, Extended, ReleaseAll, Prune;
    var s := w.state;
    match step
    case Registers(handle, now) => KeptExactly(s, now, id);
    case Releases(owner, ids, now) =>
      KeptExactly(s, now, id);
      if id in Prune(s, now).handles {
        ReleaseTakesExactly(Prune(s, now), owner, ids, id);
      } else {
        ReleaseBringsNothing(Prune(s, now), owner, ids, id);
      }
    case Reserves(owner, ids, now, expires, resolves) =>
      KeptExactly(s, now, id);
      ExtendedNames(Prune(s, now).handles, Members(ids), expires);
    case Refreshes(owner, ids, now, expires) =>
      KeptExactly(s, now, id);
      ExtendedNames(Prune(s, now).handles, Members(ids), expires);
    case KeepsAlive(client, now, expires) =>
      var mine := OfClient(s.handles, client);
      ExtendedExactly(s.handles, mine, expires, id);
      KeptExactly(s.(handles := Extended(s.handles, mine, expires)), now, id);
    case Looks(now) => KeptExactly(s, now, id);
    case _ =>
  }

  lemma ExtendedNames(handles: map<nat, Handle>, ids: set<nat>, expires: int)
    ensures Extended(handles, ids, expires).Keys == handles.Keys
  {
  }

  lemma {:induction false} ReleaseBringsNothing(s: State, owner: Owner, ids: seq<nat>, id: nat)
    requires id !in s.handles
    ensures id !in ReleaseAll(s, owner, ids).handles
    decreases |ids|
  {
    if ids != [] {
      ReleaseBringsNothing(s, owner, ids[..|ids| - 1], id);
    }
  }

  /** The request names usable handles of its owner, each once. */
  predicate Usable(s: State, owner: Owner, ids: seq<nat>, resolves: Handle -> bool) {
    && Distinct(ids)
    && forall i :: 0 <= i < |ids| ==>
                     && ids[i] in s.handles && ids[i] !in s.reserved
                     && s.handles[ids[i]].owner == owner && resolves(s.handles[ids[i]])
  }

  /** The new deadline a step gives a handle it leaves in place, if it gives one. */
  function NewDeadline(w: World, step: Step, id: nat): Option<int>
    requires id in w.state.handles
  {
    match step
    case Reserves(owner, ids, now, expires, resolves) =>
      if id in ids && Usable(Prune(w.state, now), owner, ids, resolves) then Some(expires) else None
    case Refreshes(owner, ids, now, expires) =>
      if id in ids && Usable(Prune(w.state, now), owner, ids, AnyTarget()) then Some(expires) else None
    case KeepsAlive(client, _, expires) => if w.state.handles[id].owner.client == client then Some(expires) else None
    case _ => None
  }

  lemma UsableIsAccepted(s: State, owner: Owner, ids: seq<nat>, resolves: Handle -> bool)
    ensures FirstRefusal(s, owner, ids, |ids|, resolves).None? <==> Usable(s, owner, ids, resolves)
  {
    AcceptedExactlyWhenUsable(s, owner, ids, |ids|, resolves);
    assert ids[..|ids|] == ids;
  }

  /** A handle that stays keeps its owner, name and target; its deadline moves exactly when its send is
      reserved, its composer is refreshed or its client is heard of, and then to the new one. */
  lemma DeadlineMovesExactlyBy(w: World, step: Step, id: nat)
    requires Sound(w) && id in w.state.handles && id in Next(w, step).state.handles
    ensures var before, moved := w.state.handles[id], NewDeadline(w, step, id);
            Next(w, step).state.handles[id] == before.(expiresAt := if moved.Some? then moved.value else before.expiresAt)
  {
    hide Held, Apart, FirstRefusal, Kept, Extended, ReleaseAll, Prune, Usable;
    var s := w.state;
    match step
    case Registers(handle, now) => KeptExactly(s, now, id);
    case Releases(owner, ids, now) =>
      KeptExactly(s, now, id);
      if id in Prune(s, now).handles {
        ReleaseTakesExactly(Prune(s, now), owner, ids, id);
      } else {
        ReleaseBringsNothing(Prune(s, now), owner, ids, id);
      }
    case Reserves(owner, ids, now, expires, resolves) =>
      DeadlineOfRequest(s, owner, ids, now, expires, resolves, id);
    case Refreshes(owner, ids, now, expires) =>
      DeadlineOfRequest(s, owner, ids, now, expires, AnyTarget(), id);
    case KeepsAlive(client, now, expires) =>
      var mine := OfClient(s.handles, client);
      ExtendedExactly(s.handles, mine, expires, id);
      KeptExactly(s.(handles := Extended(s.handles, mine, expires)), now, id);
    case Looks(now) => KeptExactly(s, now, id);
    case _ =>
  }

  lemma DeadlineOfRequest(s: State, owner: Owner, ids: seq<nat>, now: int, expires: int, resolves: Handle -> bool, id: nat)
    requires id in s.handles
    ensures FirstRefusal(Prune(s, now), owner, ids, |ids|, resolves).None? <==> Usable(Prune(s, now), owner, ids, resolves)
    ensures id in Prune(s, now).handles ==> Prune(s, now).handles[id] == s.handles[id]
    ensures Extended(Prune(s, now).handles, Members(ids), expires).Keys == Prune(s, now).handles.Keys
    ensures id in Prune(s, now).handles ==>
              Extended(Prune(s, now).handles, Members(ids), expires)[id]
              == s.handles[id].(expiresAt := if id in ids then expires else s.handles[id].expiresAt)
  {
    hide FirstRefusal, Usable, Prune;
    KeptExactly(s, now, id);
    UsableIsAccepted(Prune(s, now), owner, ids, resolves);
    ExtendedNames(Prune(s, now).handles, Members(ids), expires);
    if id in Prune(s, now).handles {
      ExtendedExactly(Prune(s, now).handles, Members(ids), expires, id);
    }
  }

  /** A refusal is about the first handle that cannot be used, and says why: it was named before, or it is
      another Task's, or what it stands for is gone; a handle that is unknown, reserved or another
      client's is simply unknown. */
  lemma {:induction false} RefusalSaysWhy(s: State, owner: Owner, ids: seq<nat>, n: nat, resolves: Handle -> bool) returns (i: nat)
    requires n <= |ids| && FirstRefusal(s, owner, ids, n, resolves).Some?
    ensures i < n && FirstRefusal(s, owner, ids, i, resolves).None?
    ensures var why, again := FirstRefusal(s, owner, ids, n, resolves).value, ids[i] in ids[..i];
            var free := !again && ids[i] in s.handles && ids[i] !in s.reserved;
            && (why.DuplicateHandle? <==> again)
            && (why.WrongTask? <==> free && s.handles[ids[i]].owner.task != owner.task)
            && (why.Unresolved? <==> free && s.handles[ids[i]].owner == owner)
            && (why.Unresolved? ==> !resolves(s.handles[ids[i]]))
  {
    if FirstRefusal(s, owner, ids, n - 1, resolves).Some? {
      i := RefusalSaysWhy(s, owner, ids, n - 1, resolves);
    } else {
      i := n - 1;
    }
  }

  // ---------------------------------------------------------------- restoring a queued message

  lemma {:induction false} ReleasedAreGone(s: State, owner: Owner, ids: seq<nat>, id: nat)
    requires id in ids
    ensures var t := ReleaseAll(s, owner, ids);
            id in t.handles ==> t.handles[id].owner != owner || id in t.reserved
    decreases |ids|
  {
    if id != ids[|ids| - 1] {
      var front := ids[..|ids| - 1];
      assert id in front;
      ReleasedAreGone(s, owner, front, id);
    }
  }

  /** Whatever others do meanwhile, a restore that gives its handles back leaves none of them, except
      one another send has reserved. */
  lemma RollbackLeavesNothing(steps: seq<Step>, made: nat, n: nat, id: nat)
    requires made < n < |steps| && steps[n].Releases? && id in steps[n].ids
    requires steps[made].Registers? && steps[made].handle.owner == steps[n].owner
    requires id == After(steps, made + 1).state.nextId
    ensures id in After(steps, n + 1).state.handles ==> Held(After(steps, n + 1).open, id)
  {
    hide Register, ReleaseAll, Prune, Held, Fades, Issued, Apart;
    var owner := steps[n].owner;
    NewHandleIsItsOwners(After(steps, made).state, steps[made].handle, steps[made].now);
    NumbersAreNeverReissued(steps, made + 1, n + 1);
    EveryReservationIsLive(steps, n + 1);
    ReleasedAreGone(Prune(After(steps, n).state, steps[n].now), owner, steps[n].ids, id);
    if id in After(steps, n + 1).state.handles {
      StaysItsOwners(After(steps, made + 1).state, After(steps, n + 1).state, id);
    }
  }

  lemma NewHandleIsItsOwners(s: State, handle: Handle, now: int)
    ensures var t := Register(s, handle, now); t.nextId in t.handles && t.handles[t.nextId] == handle
  {
  }

  lemma StaysItsOwners(s: State, t: State, id: nat)
    requires Fades(s, t) && id <= s.nextId && id in t.handles
    ensures id in s.handles && t.handles[id].owner == s.handles[id].owner
  {
  }
}
