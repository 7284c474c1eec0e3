/**
 Handles a shell may use to reveal a file (shell_file_handles.rs): each is bound to one client, can
 be consumed once, and the oldest are dropped when there are too many.
 */
module RevealRegistry {
  import opened Prelude

  const MAX_HANDLES: nat := 256

  type HandleId = string

  datatype Target = Target(path: string, name: string, owner: ClientId)

  datatype Registry = Registry(targets: map<HandleId, Target>, order: seq<HandleId>)

  // ---------------------------------------------------------------- one call, as a function

  /** What the eviction loop leaves. */
  function Evicted(r: Registry): Registry
    decreases |r.order|
  {
    if |r.targets| <= MAX_HANDLES || r.order == [] then r
    else Evicted(Registry(r.targets - {r.order[0]}, r.order[1..]))
  }

  function Register(r: Registry, id: HandleId, target: Target): Registry {
    Evicted(Registry(r.targets[id := target], r.order + [id]))
  }

  function OtherThan(id: HandleId): HandleId -> bool {
    (other: HandleId) => other != id
  }

  predicate Owns(r: Registry, client: ClientId, id: HandleId) {
    id in r.targets && r.targets[id].owner == client
  }

  function Consume(r: Registry, client: ClientId, id: HandleId): (Registry, Option<Target>) {
    if Owns(r, client, id) then (Registry(r.targets - {id}, Filter(r.order, OtherThan(id))), Some(r.targets[id])) else (r, None)
  }

  /** Every target can still be evicted. */
  predicate Listed(r: Registry) {
    forall id :: id in r.targets ==> id in r.order
  }

  lemma ListedIsEvictable(r: Registry)
    requires Listed(r) && |r.targets| > 0
    ensures r.order != []
  {
    assert r.targets.Keys != {} by {
      assert |r.targets| == |r.targets.Keys|;
    }
    var id :| id in r.targets.Keys;
    assert id in r.order;
  }

  // ---------------------------------------------------------------- the object

  class ShellFileRevealRegistry {
    var targets: map<HandleId, Target>
    var order: seq<HandleId>

    ghost function Current(): Registry
      reads this
    {
      Registry(targets, order)
    }

    ghost predicate Valid()
      reads this
    {
      Listed(Current()) && |targets| <= MAX_HANDLES
    }

    constructor ()
      ensures Valid() && Current() == Registry(map[], [])
    {
      targets, order := map[], [];
    }

    /** A relative path is refused.  The eviction loop has no other exit than the bound, and ends
        because every target is in the queue. */
    method RegisterLocalFile(client: ClientId, path: string, absolute: bool, name: string, id: HandleId) returns (ok: bool)
      requires Valid()
      modifies this
      ensures Valid() && ok == absolute
      ensures Current() == if ok then Register(old(Current()), id, Target(path, name, client)) else old(Current())
    {
      if !absolute {
        return false;
      }
      targets := targets[id := Target(path, name, client)];
      order := order + [id];
      ghost var whole := Current();
      while |targets| > MAX_HANDLES
        invariant Listed(Current())
        invariant Evicted(Current()) == Evicted(whole)
        decreases |order|
      {
        ListedIsEvictable(Current());
        var oldest := order[0];
        order := order[1..];
        targets := targets - {oldest};
      }
      ok := true;
    }

    method ConsumeForClient(client: ClientId, id: HandleId) returns (r: Option<Target>)
      requires Valid()
      modifies this
      ensures Valid()
      ensures (Current(), r) == Consume(old(Current()), client, id)
    {
      if !Owns(Registry(targets, order), client, id) {
        return None;
      }
      r := Some(targets[id]);
      order := Filter(order, OtherThan(id));
      targets := targets - {id};
      assert |targets| <= |old(targets)| by {
        assert targets.Keys <= old(targets).Keys;
        FewerKeys(targets.Keys, old(targets).Keys);
      }
    }
  }

  lemma {:induction false} FewerKeys(a: set<HandleId>, b: set<HandleId>)
    requires a <= b
    ensures |a| <= |b|
    decreases a
  {
    if a != {} {
      var x :| x in a;
      FewerKeys(a - {x}, b - {x});
    }
  }

  // ---------------------------------------------------------------- runs

  datatype Call =
    | Registers(client: ClientId, path: string, absolute: bool, name: string, id: HandleId)
    | Consumes(client: ClientId, id: HandleId)

  function Next(r: Registry, call: Call): (Registry, Option<Target>) {
    match call
    case Registers(client, path, absolute, name, id) =>
      (if absolute then Register(r, id, Target(path, name, client)) else r, None)
    case Consumes(client, id) => Consume(r, client, id)
  }

  function After(calls: seq<Call>, n: nat): Registry
    requires n <= |calls|
  {
    if n == 0 then Registry(map[], []) else Next(After(calls, n - 1), calls[n - 1]).0
  }

  /** The handles issued so far, in order. */
  function Issued(calls: seq<Call>, n: nat): seq<HandleId>
    requires n <= |calls|
  {
    if n == 0 then []
    else Issued(calls, n - 1) + if calls[n - 1].Registers? && calls[n - 1].absolute then [calls[n - 1].id] else []
  }

  /** The handles handed out to their owner so far. */
  function Consumed(calls: seq<Call>, n: nat): set<HandleId>
    requires n <= |calls|
  {
    if n == 0 then {}
    else Consumed(calls, n - 1) + if Next(After(calls, n - 1), calls[n - 1]).1.Some? then {calls[n - 1].id} else {}
  }

  function NotIn(gone: set<HandleId>): HandleId -> bool {
    (id: HandleId) => id !in gone
  }

  /** The queue holds the handles issued from `cut` on that were not consumed, and a cut leaves as
      many as the bound behind it. */
  predicate HoldsFrom(r: Registry, issued: seq<HandleId>, gone: set<HandleId>, cut: nat) {
    && cut <= |issued|
    && r.order == Filter(issued[cut..], NotIn(gone))
    && (cut > 0 ==> |issued| - cut >= MAX_HANDLES)
  }

  function Members(order: seq<HandleId>): set<HandleId> {
    set id | id in order
  }

  /** Targets and queue name the same handles, each once. */
  predicate Agrees(r: Registry) {
    Distinct(r.order) && r.targets.Keys == Members(r.order)
  }

  predicate Sound(r: Registry) {
    Agrees(r) && |r.order| <= MAX_HANDLES
  }

  lemma {:induction false} AsManyMembers(order: seq<HandleId>)
    requires Distinct(order)
    ensures |Members(order)| == |order|
    decreases |order|
  {
    if order != [] {
      var last := order[|order| - 1];
      var rest := order[..|order| - 1];
      AsManyMembers(rest);
      assert Members(order) == Members(rest) + {last};
    }
  }

  lemma AsManyTargets(r: Registry)
    requires Agrees(r)
    ensures |r.targets| == |r.order|
  {
    AsManyMembers(r.order);
    assert |r.targets| == |r.targets.Keys|;
  }

  lemma AddingAgrees(r: Registry, id: HandleId, target: Target)
    requires Agrees(r) && id !in r.order
    ensures Agrees(Registry(r.targets[id := target], r.order + [id]))
  {
    assert Members(r.order + [id]) == Members(r.order) + {id};
  }

  lemma DroppingAgrees(r: Registry)
    requires Agrees(r) && r.order != []
    ensures Agrees(Registry(r.targets - {r.order[0]}, r.order[1..]))
  {
    assert r.order == [r.order[0]] + r.order[1..];
    assert Members(r.order[1..]) == Members(r.order) - {r.order[0]};
  }

  /** Registering a new handle drops the oldest one if the registry is full. */
  lemma RegisterAtMostEvictsOldest(r: Registry, id: HandleId, target: Target)
    requires Sound(r) && id !in r.order
    ensures Sound(Register(r, id, target))
    ensures Register(r, id, target).order == if |r.order| == MAX_HANDLES then r.order[1..] + [id] else r.order + [id]
  {
    hide Agrees;
    var whole := Registry(r.targets[id := target], r.order + [id]);
    AddingAgrees(r, id, target);
    AsManyTargets(whole);
    if |r.order| == MAX_HANDLES {
      var less := Registry(whole.targets - {whole.order[0]}, whole.order[1..]);
      DroppingAgrees(whole);
      AsManyTargets(less);
      assert less.order == r.order[1..] + [id];
      assert Evicted(whole) == Evicted(less);
    }
  }

  lemma ConsumeKeepsSound(r: Registry, client: ClientId, id: HandleId)
    requires Sound(r)
    ensures Sound(Consume(r, client, id).0)
  {
    FilterKeepsDistinct(r.order, OtherThan(id));
    var next := Consume(r, client, id).0;
    assert next.targets.Keys == Members(next.order);
  }

  lemma FilterStep(s: seq<HandleId>, keep: HandleId -> bool)
    ensures Filter(s, keep) != [] ==> s != []
    ensures s != [] ==> Filter(s, keep) == if keep(s[0]) then [s[0]] + Filter(s[1..], keep) else Filter(s[1..], keep)
  {
  }

  /** The first kept handle of the queue, and what follows it. */
  lemma {:induction false} FirstKept(issued: seq<HandleId>, cut: nat, keep: HandleId -> bool) returns (p: nat)
    requires cut <= |issued| && Filter(issued[cut..], keep) != []
    ensures cut <= p < |issued| && Filter(issued[cut..], keep) == [issued[p]] + Filter(issued[p + 1..], keep)
    decreases |issued| - cut
  {
    hide Filter;
    FilterStep(issued[cut..], keep);
    assert issued[cut..][1..] == issued[cut + 1..];
    if keep(issued[cut]) {
      p := cut;
    } else {
      p := FirstKept(issued, cut + 1, keep);
    }
  }

  lemma {:induction false} FilterOneMore(s: seq<HandleId>, id: HandleId, keep: HandleId -> bool)
    ensures Filter(s + [id], keep) == Filter(s, keep) + if keep(id) then [id] else []
    decreases |s|
  {
    if s != [] {
      FilterOneMore(s[1..], id, keep);
      assert (s + [id])[1..] == s[1..] + [id];
    }
  }

  lemma RegisterMovesTheCut(r: Registry, issued: seq<HandleId>, gone: set<HandleId>, cut: nat, id: HandleId, target: Target)
    returns (moved: nat)
    requires Sound(r) && HoldsFrom(r, issued, gone, cut) && id !in issued && id !in gone
    ensures Sound(Register(r, id, target)) && HoldsFrom(Register(r, id, target), issued + [id], gone, moved)
  {
    hide Register, Filter, Agrees;
    NewInQueue(r, issued, gone, cut, id);
    RegisterAtMostEvictsOldest(r, id, target);
    if |r.order| < MAX_HANDLES {
      moved := cut;
    } else {
      var p := FirstKept(issued, cut, NotIn(gone));
      moved := p + 1;
    }
    FilterOneMore(issued[moved..], id, NotIn(gone));
    assert (issued + [id])[moved..] == issued[moved..] + [id];
    FilterShortens(issued[moved..], NotIn(gone));
  }

  lemma FilterShortens(s: seq<HandleId>, keep: HandleId -> bool)
    ensures |Filter(s, keep)| <= |s|
  {
  }

  lemma NewInQueue(r: Registry, issued: seq<HandleId>, gone: set<HandleId>, cut: nat, id: HandleId)
    requires HoldsFrom(r, issued, gone, cut) && id !in issued
    ensures id !in r.order
  {
  }

  lemma ConsumeMovesNothing(r: Registry, issued: seq<HandleId>, gone: set<HandleId>, cut: nat, client: ClientId, id: HandleId)
    requires Sound(r) && HoldsFrom(r, issued, gone, cut) && Owns(r, client, id)
    ensures HoldsFrom(Consume(r, client, id).0, issued, gone + {id}, cut)
  {
    FilterTwice(issued[cut..], NotIn(gone), OtherThan(id), NotIn(gone + {id}));
  }

  /** Handle ids are fresh: the source draws random UUIDs. */
  predicate FreshIds(calls: seq<Call>) {
    forall i, j :: 0 <= i < j < |calls| && calls[i].Registers? && calls[j].Registers? ==> calls[i].id != calls[j].id
  }

  lemma {:induction false} IssuedComeFromCalls(calls: seq<Call>, n: nat, id: HandleId)
    requires n <= |calls| && id in Issued(calls, n)
    ensures exists i :: 0 <= i < n && calls[i].Registers? && calls[i].id == id
  {
    if id in Issued(calls, n - 1) {
      IssuedComeFromCalls(calls, n - 1, id);
    } else {
      assert calls[n - 1].Registers? && calls[n - 1].id == id;
    }
  }

  /** In every reachable registry the queue is a window of the issued handles. */
  lemma {:induction false} EveryRegistryIsAWindow(calls: seq<Call>, n: nat) returns (cut: nat)
    requires FreshIds(calls) && n <= |calls|
    ensures Sound(After(calls, n))
    ensures HoldsFrom(After(calls, n), Issued(calls, n), Consumed(calls, n), cut)
    ensures forall id :: id in Consumed(calls, n) ==> id in Issued(calls, n)
  {
    hide FreshIds, Sound, HoldsFrom, After, Issued, Consumed;
    if n == 0 {
      cut := 0;
      EmptyIsAWindow(calls);
    } else {
      cut := EveryRegistryIsAWindow(calls, n - 1);
      cut := WindowStep(calls, n, After(calls, n - 1), Issued(calls, n - 1), Consumed(calls, n - 1), cut);
    }
  }

  lemma EmptyIsAWindow(calls: seq<Call>)
    ensures Sound(After(calls, 0))
    ensures HoldsFrom(After(calls, 0), Issued(calls, 0), Consumed(calls, 0), 0) && Consumed(calls, 0) == {}
  {
  }

  lemma WindowStep(calls: seq<Call>, n: nat, r: Registry, issued: seq<HandleId>, gone: set<HandleId>, cut: nat)
    returns (moved: nat)
    requires FreshIds(calls) && 0 < n <= |calls|
    requires r == After(calls, n - 1) && issued == Issued(calls, n - 1) && gone == Consumed(calls, n - 1)
    requires Sound(r) && HoldsFrom(r, issued, gone, cut) && forall id :: id in gone ==> id in issued
    ensures Sound(After(calls, n))
    ensures HoldsFrom(After(calls, n), Issued(calls, n), Consumed(calls, n), moved)
    ensures forall id :: id in Consumed(calls, n) ==> id in Issued(calls, n)
  {
    hide Sound, Register, HoldsFrom, Filter;
    moved := cut;
    assert !(calls[n - 1].Registers? && calls[n - 1].absolute) ==> Issued(calls, n) == issued;
    assert Next(r, calls[n - 1]).1.None? ==> Consumed(calls, n) == gone;
    match calls[n - 1]
    case Registers(client, path, absolute, name, id) =>
      if absolute {
        if id in issued {
          IssuedComeFromCalls(calls, n - 1, id);
          assert false;
        }
        moved := RegisterMovesTheCut(r, issued, gone, cut, id, Target(path, name, client));
      }
    case Consumes(client, id) =>
      if Owns(r, client, id) {
        ConsumeKeepsSound(r, client, id);
        ConsumeMovesNothing(r, issued, gone, cut, client, id);
        LiveIsIssued(r, issued, gone, cut, id);
      }
  }

  lemma LiveIsIssued(r: Registry, issued: seq<HandleId>, gone: set<HandleId>, cut: nat, id: HandleId)
    requires Sound(r) && HoldsFrom(r, issued, gone, cut)
    ensures id in r.targets <==> id in issued[cut..] && id !in gone
    ensures id in r.targets ==> id in issued
  {
    assert id in r.targets <==> id in r.order;
  }

  /** The 256 handles issued last are live unless consumed. */
  lemma RecentHandlesAreLive(calls: seq<Call>, n: nat, p: nat)
    requires FreshIds(calls) && n <= |calls|
    requires p < |Issued(calls, n)| <= p + 256
    ensures Issued(calls, n)[p] in After(calls, n).targets <==> Issued(calls, n)[p] !in Consumed(calls, n)
  {
    var cut := EveryRegistryIsAWindow(calls, n);
    var issued := Issued(calls, n);
    LiveIsIssued(After(calls, n), issued, Consumed(calls, n), cut, issued[p]);
    hide Sound, Issued, Consumed, After;
    assert cut <= p;
    assert issued[cut..][p - cut] == issued[p];
  }

  /** Eviction is oldest first: while a handle is live, so is every younger one not consumed. */
  lemma OlderGoesFirst(calls: seq<Call>, n: nat, p: nat, q: nat)
    requires FreshIds(calls) && n <= |calls|
    requires p < q < |Issued(calls, n)|
    requires Issued(calls, n)[p] in After(calls, n).targets && Issued(calls, n)[q] !in Consumed(calls, n)
    ensures Issued(calls, n)[q] in After(calls, n).targets
  {
    var cut := EveryRegistryIsAWindow(calls, n);
    var issued := Issued(calls, n);
    LiveIsIssued(After(calls, n), issued, Consumed(calls, n), cut, issued[p]);
    LiveIsIssued(After(calls, n), issued, Consumed(calls, n), cut, issued[q]);
    IssuedIsDistinct(calls, n);
    hide Sound, Issued, Consumed, After;
    var k :| 0 <= k < |issued| - cut && issued[cut..][k] == issued[p];
    assert issued[cut + k] == issued[p] && cut + k == p;
    assert issued[cut..][q - cut] == issued[q];
  }

  lemma {:induction false} IssuedIsDistinct(calls: seq<Call>, n: nat)
    requires FreshIds(calls) && n <= |calls|
    ensures Distinct(Issued(calls, n))
  {
    if n > 0 {
      IssuedIsDistinct(calls, n - 1);
      var issued := Issued(calls, n - 1);
      if calls[n - 1].Registers? && calls[n - 1].id in issued {
        IssuedComeFromCalls(calls, n - 1, calls[n - 1].id);
        assert false;
      }
    }
  }

  lemma {:induction false} ConsumedStays(calls: seq<Call>, i: nat, n: nat)
    requires i <= n <= |calls|
    ensures Consumed(calls, i) <= Consumed(calls, n)
    decreases n - i
  {
    if i < n {
      ConsumedStays(calls, i, n - 1);
    }
  }

  lemma ConsumedHere(calls: seq<Call>, i: nat)
    requires i < |calls| && Next(After(calls, i), calls[i]).1.Some?
    ensures calls[i].id in Consumed(calls, i + 1)
  {
    hide After, Next;
  }

  /** A handle is handed out at most once. */
  lemma HandedOutOnce(calls: seq<Call>, i: nat, j: nat)
    requires FreshIds(calls) && i < j < |calls|
    requires calls[i].Consumes? && calls[j].Consumes? && calls[i].id == calls[j].id
    requires Next(After(calls, i), calls[i]).1.Some?
    ensures Next(After(calls, j), calls[j]).1.None?
  {
    hide After, Consumed, Issued, Sound, HoldsFrom, FreshIds, Filter, Register;
    var id := calls[i].id;
    ConsumedHere(calls, i);
    var cut := EveryRegistryIsAWindow(calls, j);
    ConsumedStays(calls, i + 1, j);
    LiveIsIssued(After(calls, j), Issued(calls, j), Consumed(calls, j), cut, id);
  }

  lemma {:induction false} EvictedKeepsTargets(r: Registry, id: HandleId)
    requires id in Evicted(r).targets
    ensures id in r.targets && Evicted(r).targets[id] == r.targets[id]
    decreases |r.order|
  {
    if |r.targets| > MAX_HANDLES && r.order != [] {
      EvictedKeepsTargets(Registry(r.targets - {r.order[0]}, r.order[1..]), id);
    }
  }

  /** The client that was issued the handle and what for. */
  predicate IssuedBy(call: Call, id: HandleId, target: Target) {
    call.Registers? && call.absolute && call.id == id && target == Target(call.path, call.name, call.client)
  }

  lemma {:induction false} TargetsAreAsIssued(calls: seq<Call>, n: nat, id: HandleId) returns (i: nat)
    requires n <= |calls| && id in After(calls, n).targets
    ensures i < n && IssuedBy(calls[i], id, After(calls, n).targets[id])
  {
    var r := After(calls, n - 1);
    match calls[n - 1]
    case Registers(client, path, absolute, name, other) =>
      if absolute {
        EvictedKeepsTargets(Registry(r.targets[other := Target(path, name, client)], r.order + [other]), id);
      }
      if absolute && other == id {
        i := n - 1;
      } else {
        i := TargetsAreAsIssued(calls, n - 1, id);
      }
    case Consumes(client, other) => i := TargetsAreAsIssued(calls, n - 1, id);
  }

  /** Only the client a handle was issued to receives its file, and receives the file it named. */
  lemma OnlyTheOwnerReceives(calls: seq<Call>, n: nat) returns (i: nat)
    requires n < |calls| && calls[n].Consumes? && Next(After(calls, n), calls[n]).1.Some?
    ensures i < n && IssuedBy(calls[i], calls[n].id, Next(After(calls, n), calls[n]).1.value)
    ensures calls[i].client == calls[n].client
  {
    i := TargetsAreAsIssued(calls, n, calls[n].id);
  }
}
