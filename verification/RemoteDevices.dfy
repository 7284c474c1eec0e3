/**
 Remote devices (remote_devices.rs): the durable trust list, the pending invite, the App Server's
 identity key and the live connections.  Trust is written before it takes effect.
 */
module RemoteDevices {
  import opened Prelude
  import T = Text

  type DeviceId = string

  datatype Device = Device(id: DeviceId, name: string, model: Option<string>, addedAt: nat, addedBy: Option<string>, lastSeen: Option<nat>)

  /** A stored key the key type cannot parse is as good as none. */
  datatype Key = Usable(number: nat) | Damaged

  datatype Stored = Stored(key: Option<Key>, devices: seq<Device>)

  datatype Invite = Invite(secret: seq<bv8>, addedBy: string, expiresAt: nat)

  /** How a write to the store ends.  The file is replaced by renaming; what follows the rename can
      still fail. */
  datatype WriteOutcome = Written | FailedBeforeRename | FailedAfterRename

  datatype State = State(
    stored: Stored,
    disk: Stored,
    invite: Option<Invite>,
    edge: bool,
    connections: map<DeviceId, nat>,
    protocolConnections: map<string, DeviceId>)

  const INVITE_LIFETIME: nat := 10 * 60 * 1000
  const U64_MAX: nat := 0xffff_ffff_ffff_ffff

  // ---------------------------------------------------------------- pure parts

  /** The sum saturates at the largest 64-bit time. */
  function Expiry(now: nat): nat {
    if now + INVITE_LIFETIME > U64_MAX then U64_MAX else now + INVITE_LIFETIME
  }

  predicate HasIdentity(s: Stored) {
    s.key.Some? && s.key.value.Usable?
  }

  function WithIdentity(s: Stored, minted: nat): Stored {
    if HasIdentity(s) then s else s.(key := Some(Usable(minted)))
  }

  predicate WantsEndpoint(s: State) {
    s.stored.devices != [] || s.invite.Some?
  }

  function OtherThan(id: DeviceId): Device -> bool {
    (d: Device) => d.id != id
  }

  // ---------------------------------------------------------------- labels

  const MAX_LABEL_BYTES: nat := 64

  predicate IsControl(c: char) {
    c as int < 32 || 127 <= c as int < 160
  }

  function Visible(): char -> bool {
    (c: char) => !IsControl(c)
  }

  /** The longest prefix within the bytes. */
  function Fitting(s: string, bytes: nat): string {
    if T.ByteLength(s) <= bytes then s else if s == "" then "" else Fitting(s[..|s| - 1], bytes)
  }

  /** A label as it is stored: trimmed, cut between characters, without control characters. */
  function Label(text: string): string {
    Filter(Fitting(T.Trim(text), MAX_LABEL_BYTES), Visible())
  }

  predicate Boundary(s: string, at: nat) {
    exists k :: 0 <= k <= |s| && T.ByteLength(s[..k]) == at
  }

  lemma {:induction false} BytesAppend(a: string, b: string)
    ensures T.ByteLength(a + b) == T.ByteLength(a) + T.ByteLength(b)
    decreases |a|
  {
    if a == "" {
      assert a + b == b;
    } else {
      BytesAppend(a[1..], b);
      assert (a + b)[1..] == a[1..] + b;
    }
  }

  /** Longer prefixes take more bytes. */
  lemma PrefixBytes(s: string, k: nat, l: nat)
    requires k <= l <= |s|
    ensures T.ByteLength(s[..k]) <= T.ByteLength(s[..l])
    ensures k < l ==> T.ByteLength(s[..k]) < T.ByteLength(s[..l])
  {
    assert s[..l] == s[..k] + s[k..l];
    BytesAppend(s[..k], s[k..l]);
  }

  lemma {:induction false} FittingIsLongest(s: string, bytes: nat, k: nat)
    requires k <= |s| && T.ByteLength(s[..k]) <= bytes && (k < |s| ==> T.ByteLength(s[..k + 1]) > bytes)
    ensures Fitting(s, bytes) == s[..k]
    decreases |s|
  {
    assert s[..|s|] == s;
    if k < |s| {
      PrefixBytes(s, k + 1, |s|);
      var shorter := s[..|s| - 1];
      assert shorter[..k] == s[..k] && (k < |shorter| ==> shorter[..k + 1] == s[..k + 1]);
      FittingIsLongest(shorter, bytes, k);
    } else {
      assert s[..k] == s;
    }
  }

  /** Cuts a text to the bound, stepping back to the nearest character boundary. */
  method CutToBytes(s: string) returns (cut: string)
    ensures cut == Fitting(s, MAX_LABEL_BYTES)
  {
    var whole := T.ByteLength(s);
    var end: nat := if whole < MAX_LABEL_BYTES then whole else MAX_LABEL_BYTES;
    ghost var first := end;
    assert s[..0] == "" && s[..|s|] == s;
    while !Boundary(s, end)
      invariant end <= first && forall at: nat :: end < at <= first ==> !Boundary(s, at)
      decreases end
    {
      assert end > 0 by {
        assert T.ByteLength(s[..0]) == 0;
      }
      end := end - 1;
    }
    var k :| 0 <= k <= |s| && T.ByteLength(s[..k]) == end;
    if k < |s| {
      PrefixBytes(s, k, k + 1);
      PrefixBytes(s, k + 1, |s|);
      assert Boundary(s, T.ByteLength(s[..k + 1]));
    }
    FittingIsLongest(s, MAX_LABEL_BYTES, k);
    cut := s[..k];
  }

  lemma {:induction false} FittingFits(s: string, bytes: nat)
    ensures T.ByteLength(Fitting(s, bytes)) <= bytes && Fitting(s, bytes) <= s
    decreases |s|
  {
    if T.ByteLength(s) > bytes {
      FittingFits(s[..|s| - 1], bytes);
    }
  }

  lemma {:induction false} VisibleTakesFewerBytes(s: string)
    ensures T.ByteLength(Filter(s, Visible())) <= T.ByteLength(s)
    decreases |s|
  {
    if s != "" {
      VisibleTakesFewerBytes(s[1..]);
      if Visible()(s[0]) {
        assert Filter(s, Visible())[1..] == Filter(s[1..], Visible());
      }
    }
  }

  /** The character is neither a C0 control, nor DEL, nor a C1 control. */
  predicate Printable(c: char) {
    32 <= c as int <= 126 || 160 <= c as int
  }

  /** Every stored label fits and has no control character; one that already does is kept. */
  lemma LabelsFit(text: string)
    ensures T.ByteLength(Label(text)) <= 64 && forall c :: c in Label(text) ==> Printable(c)
    ensures T.Trim(text) == text && T.ByteLength(text) <= 64 && (forall c :: c in text ==> Printable(c)) ==>
              Label(text) == text
  {
    var fitting := Fitting(T.Trim(text), MAX_LABEL_BYTES);
    FittingFits(T.Trim(text), MAX_LABEL_BYTES);
    VisibleTakesFewerBytes(fitting);
    if T.Trim(text) == text && T.ByteLength(text) <= MAX_LABEL_BYTES && forall c :: c in text ==> Printable(c) {
      FilterAll(text, Visible());
    }
  }

  // ---------------------------------------------------------------- trust

  function NameOf(name: string): string {
    if Label(name) == "" then "Unnamed device" else Label(name)
  }

  function ModelOf(model: Option<string>): Option<string> {
    if model.None? || Label(model.value) == "" then None else Some(Label(model.value))
  }

  /** Pairing the same key again refreshes its labels and keeps one entry. */
  function Trust(s: Stored, id: DeviceId, name: string, model: Option<string>, addedBy: string, now: nat): Stored {
    s.(devices := Filter(s.devices, OtherThan(id)) + [Device(id, NameOf(name), ModelOf(model), now, Some(addedBy), None)])
  }

  predicate Trusted(s: Stored, id: DeviceId) {
    exists d :: d in s.devices && d.id == id
  }

  predicate UniqueIds(s: Stored) {
    forall i, j :: 0 <= i < j < |s.devices| ==> s.devices[i].id != s.devices[j].id
  }

  /** Compares in time that depends on the lengths alone. */
  function Difference(a: seq<bv8>, b: seq<bv8>): bv8
    requires |a| == |b|
  {
    if a == [] then 0 else Difference(a[..|a| - 1], b[..|b| - 1]) | (a[|a| - 1] ^ b[|b| - 1])
  }

  lemma NoBitsLeft(x: bv8, y: bv8, z: bv8)
    ensures x | (y ^ z) == 0 <==> x == 0 && y == z
  {
  }

  lemma {:induction false} DifferenceIsZeroWhenEqual(a: seq<bv8>, b: seq<bv8>)
    requires |a| == |b|
    ensures Difference(a, b) == 0 <==> a == b
    decreases |a|
  {
    if a != [] {
      var x, y := a[..|a| - 1], b[..|b| - 1];
      DifferenceIsZeroWhenEqual(x, y);
      NoBitsLeft(Difference(x, y), a[|a| - 1], b[|b| - 1]);
      assert a == x + [a[|a| - 1]] && b == y + [b[|b| - 1]];
    }
  }

  /** The loop over the bytes decides plain equality. */
  method ConstantTimeEq(expected: seq<bv8>, actual: seq<bv8>) returns (equal: bool)
    ensures equal <==> expected == actual
  {
    if |expected| != |actual| {
      return false;
    }
    var difference: bv8 := 0;
    for i := 0 to |expected|
      invariant difference == Difference(expected[..i], actual[..i])
    {
      assert expected[..i + 1][..i] == expected[..i] && actual[..i + 1][..i] == actual[..i];
      difference := difference | (expected[i] ^ actual[i]);
    }
    assert expected[..|expected|] == expected && actual[..|actual|] == actual;
    DifferenceIsZeroWhenEqual(expected, actual);
    equal := difference == 0;
  }

  // ---------------------------------------------------------------- one call, as a function

  datatype Outcome = Done | Unavailable | NoInvite | ExpiredInvite | WrongSecret | StorageFailed | NotFound

  /** Memory follows the store only when the whole write succeeded. */
  function Write(s: State, next: Stored, outcome: WriteOutcome): State {
    match outcome
    case Written => s.(stored := next, disk := next)
    case FailedBeforeRename => s
    case FailedAfterRename => s.(disk := next)
  }

  function CreateInvite(s: State, addedBy: string, now: nat, secret: seq<bv8>, freshKey: nat, outcome: WriteOutcome): (State, Outcome) {
    if !s.edge then (s, Unavailable)
    else
      var next := WithIdentity(s.stored, freshKey);
      var invite := Some(Invite(secret, addedBy, Expiry(now)));
      if next == s.stored then (s.(invite := invite), Done)
      else if outcome.Written? then (Write(s, next, outcome).(invite := invite), Done)
      else (Write(s, next, outcome), StorageFailed)
  }

  function CancelInvite(s: State, outcome: WriteOutcome): State {
    if s.invite.None? then s
    else
      var spent := s.(invite := None);
      if WantsEndpoint(spent) || !HasIdentity(spent.stored) then spent
      else Write(spent, spent.stored.(key := None), outcome)
  }

  function RedeemInvite(s: State, id: DeviceId, secret: seq<bv8>, name: string, model: Option<string>, now: nat,
                        outcome: WriteOutcome): (State, Outcome)
  {
    if s.invite.None? then (s, NoInvite)
    else if now >= s.invite.value.expiresAt then (s.(invite := None), ExpiredInvite)
    else if s.invite.value.secret != secret then (s, WrongSecret)
    else
      var next := Trust(s.stored, id, name, model, s.invite.value.addedBy, now);
      if outcome.Written? then (Write(s, next, outcome).(invite := None), Done)
      else (Write(s, next, outcome), StorageFailed)
  }

  function Approve(s: State, id: DeviceId, name: string, model: Option<string>, addedBy: string, now: nat, freshKey: nat,
                   outcome: WriteOutcome): (State, Outcome)
  {
    if !s.edge then (s, Unavailable)
    else
      var next := Trust(WithIdentity(s.stored, freshKey), id, name, model, addedBy, now);
      (Write(s, next, outcome), if outcome.Written? then Done else StorageFailed)
  }

  function Disowned(connections: map<string, DeviceId>, id: DeviceId): map<string, DeviceId> {
    map k | k in connections && connections[k] != id :: connections[k]
  }

  /** The list without the device; the key goes with the last device unless an invite needs it. */
  function Without(s: Stored, id: DeviceId, uninvited: bool): Stored {
    var devices := Filter(s.devices, OtherThan(id));
    Stored(if devices == [] && uninvited then None else s.key, devices)
  }

  function Remove(s: State, id: DeviceId, outcome: WriteOutcome): (State, Outcome) {
    var next := Without(s.stored, id, s.invite.None?);
    if |next.devices| == |s.stored.devices| then (s, NotFound)
    else
      if outcome.Written? then
        (Write(s, next, outcome).(connections := s.connections - {id},
                                  protocolConnections := Disowned(s.protocolConnections, id)), Done)
      else (Write(s, next, outcome), StorageFailed)
  }

  function Connected(s: State, id: DeviceId): State {
    s.(connections := s.connections[id := (if id in s.connections then s.connections[id] else 0) + 1])
  }

  function Seen(devices: seq<Device>, id: DeviceId, now: nat): (r: seq<Device>)
    ensures |r| == |devices|
    ensures forall i :: 0 <= i < |r| ==> r[i].(lastSeen := devices[i].lastSeen) == devices[i]
  {
    if devices == [] then []
    else if devices[0].id == id then [devices[0].(lastSeen := Some(now))] + devices[1..]
    else [devices[0]] + Seen(devices[1..], id, now)
  }

  function Disconnected(s: State, id: DeviceId, now: nat, outcome: WriteOutcome): State {
    if id !in s.connections then s
    else if s.connections[id] > 1 then s.(connections := s.connections[id := s.connections[id] - 1])
    else
      var last := s.(connections := s.connections - {id}, protocolConnections := Disowned(s.protocolConnections, id));
      if Trusted(s.stored, id) then Write(last, s.stored.(devices := Seen(s.stored.devices, id, now)), outcome) else last
  }

  function Noted(s: State, id: DeviceId, connection: string): State {
    s.(protocolConnections := s.protocolConnections[connection := id])
  }

  // ---------------------------------------------------------------- the object

  class RemoteDeviceService {
    var stored: Stored
    var disk: Stored
    var invite: Option<Invite>
    var edge: bool
    var connections: map<DeviceId, nat>
    var protocolConnections: map<string, DeviceId>

    ghost function Current(): State
      reads this
    {
      State(stored, disk, invite, edge, connections, protocolConnections)
    }

    /** A damaged trust file is not trusted: remote access starts from nothing. */
    constructor (file: Stored, readable: bool)
      ensures Current() == State(if readable then file else Stored(None, []), file, None, false, map[], map[])
    {
      stored := if readable then file else Stored(None, []);
      disk := file;
      invite, edge, connections, protocolConnections := None, false, map[], map[];
    }

    method WriteStore(next: Stored, outcome: WriteOutcome) returns (ok: bool)
      modifies this`disk
      ensures ok == outcome.Written? && disk == if outcome.FailedBeforeRename? then old(disk) else next
    {
      if !outcome.FailedBeforeRename? {
        disk := next;
      }
      ok := outcome.Written?;
    }

    method AttachEdge()
      modifies this`edge
      ensures edge
    {
      edge := true;
    }

    method CreateInvitation(addedBy: string, now: nat, secret: seq<bv8>, freshKey: nat, outcome: WriteOutcome)
      returns (result: Outcome)
      modifies this
      ensures (Current(), result) == CreateInvite(old(Current()), addedBy, now, secret, freshKey, outcome)
    {
      if !edge {
        return Unavailable;
      }
      var next := WithIdentity(stored, freshKey);
      if next != stored {
        var ok := WriteStore(next, outcome);
        if !ok {
          return StorageFailed;
        }
        stored := next;
      }
      invite := Some(Invite(secret, addedBy, Expiry(now)));
      result := Done;
    }

    method CancelInvitation(outcome: WriteOutcome)
      modifies this
      ensures Current() == CancelInvite(old(Current()), outcome)
    {
      if invite.None? {
        return;
      }
      invite := None;
      if stored.devices != [] || !HasIdentity(stored) {
        return;
      }
      var next := stored.(key := None);
      var ok := WriteStore(next, outcome);
      if ok {
        stored := next;
      }
    }

    method Redeem(id: DeviceId, secret: seq<bv8>, name: string, model: Option<string>, now: nat, outcome: WriteOutcome)
      returns (result: Outcome)
      modifies this
      ensures (Current(), result) == RedeemInvite(old(Current()), id, secret, name, model, now, outcome)
    {
      if invite.None? {
        return NoInvite;
      }
      if now >= invite.value.expiresAt {
        invite := None;
        return ExpiredInvite;
      }
      var matches := ConstantTimeEq(invite.value.secret, secret);
      if !matches {
        return WrongSecret;
      }
      var next := Trust(stored, id, name, model, invite.value.addedBy, now);
      var ok := WriteStore(next, outcome);
      if !ok {
        return StorageFailed;
      }
      stored, invite := next, None;
      result := Done;
    }

    method ApproveJoinRequest(id: DeviceId, name: string, model: Option<string>, addedBy: string, now: nat, freshKey: nat,
                              outcome: WriteOutcome)
      returns (result: Outcome)
      modifies this
      ensures (Current(), result) == Approve(old(Current()), id, name, model, addedBy, now, freshKey, outcome)
    {
      if !edge {
        return Unavailable;
      }
      var next := Trust(WithIdentity(stored, freshKey), id, name, model, addedBy, now);
      var ok := WriteStore(next, outcome);
      if !ok {
        return StorageFailed;
      }
      stored := next;
      result := Done;
    }

    method RemoveDevice(id: DeviceId, outcome: WriteOutcome) returns (result: Outcome)
      modifies this
      ensures (Current(), result) == Remove(old(Current()), id, outcome)
    {
      var next := stored.(devices := Filter(stored.devices, OtherThan(id)));
      if |next.devices| == |stored.devices| {
        return NotFound;
      }
      if next.devices == [] && invite.None? {
        next := next.(key := None);
      }
      var ok := WriteStore(next, outcome);
      if !ok {
        return StorageFailed;
      }
      stored := next;
      connections := connections - {id};
      protocolConnections := Disowned(protocolConnections, id);
      result := Done;
    }

    method DeviceConnected(id: DeviceId)
      modifies this`connections
      ensures Current() == Connected(old(Current()), id)
    {
      var open := if id in connections then connections[id] else 0;
      connections := connections[id := open + 1];
    }

    method NoteProtocolConnection(id: DeviceId, connection: string)
      modifies this`protocolConnections
      ensures Current() == Noted(old(Current()), id, connection)
    {
      protocolConnections := protocolConnections[connection := id];
    }

    method DeviceDisconnected(id: DeviceId, now: nat, outcome: WriteOutcome)
      modifies this
      ensures Current() == Disconnected(old(Current()), id, now, outcome)
    {
      if id !in connections {
        return;
      }
      var open := if connections[id] > 0 then connections[id] - 1 else 0;
      connections := connections[id := open];
      if open > 0 {
        return;
      }
      connections := connections - {id};
      assert connections == old(connections) - {id};
      protocolConnections := Disowned(protocolConnections, id);
      if exists d :: d in stored.devices && d.id == id {
        var next := stored.(devices := Seen(stored.devices, id, now));
        var ok := WriteStore(next, outcome);
        if ok {
          stored := next;
        }
      }
    }
  }

  // ---------------------------------------------------------------- runs

  datatype Call =
    | Invites(addedBy: string, now: nat, secret: seq<bv8>, freshKey: nat, outcome: WriteOutcome)
    | Cancels(outcome: WriteOutcome)
    | Redeems(id: DeviceId, secret: seq<bv8>, name: string, model: Option<string>, now: nat, outcome: WriteOutcome)
    | Approves(id: DeviceId, name: string, model: Option<string>, addedBy: string, now: nat, freshKey: nat, outcome: WriteOutcome)
    | Removes(id: DeviceId, outcome: WriteOutcome)
    | Connects(id: DeviceId)
    | Disconnects(id: DeviceId, now: nat, outcome: WriteOutcome)
    | Notes(id: DeviceId, connection: string)
    | AttachesEdge

  function Next(s: State, call: Call): (State, Outcome) {
    match call
    case Invites(addedBy, now, secret, freshKey, outcome) => CreateInvite(s, addedBy, now, secret, freshKey, outcome)
    case Cancels(outcome) => (CancelInvite(s, outcome), Done)
    case Redeems(id, secret, name, model, now, outcome) => RedeemInvite(s, id, secret, name, model, now, outcome)
    case Approves(id, name, model, addedBy, now, freshKey, outcome) => Approve(s, id, name, model, addedBy, now, freshKey, outcome)
    case Removes(id, outcome) => Remove(s, id, outcome)
    case Connects(id) => (Connected(s, id), Done)
    case Disconnects(id, now, outcome) => (Disconnected(s, id, now, outcome), Done)
    case Notes(id, connection) => (Noted(s, id, connection), Done)
    case AttachesEdge => (s.(edge := true), Done)
  }

  function After(file: Stored, calls: seq<Call>, n: nat): State
    requires n <= |calls|
  {
    if n == 0 then State(file, file, None, false, map[], map[]) else Next(After(file, calls, n - 1), calls[n - 1]).0
  }

  function Answer(file: Stored, calls: seq<Call>, n: nat): Outcome
    requires n < |calls|
  {
    Next(After(file, calls, n), calls[n]).1
  }

  // ---------------------------------------------------------------- memory and disk

  /** The write a call attempts, if any. */
  function Attempted(s: State, call: Call): Option<(Stored, WriteOutcome)> {
    match call
    case Invites(addedBy, now, secret, freshKey, outcome) =>
      if s.edge && !HasIdentity(s.stored) then Some((WithIdentity(s.stored, freshKey), outcome)) else None
    case Cancels(outcome) =>
      if s.invite.Some? && s.stored.devices == [] && HasIdentity(s.stored) then Some((s.stored.(key := None), outcome)) else None
    case Redeems(id, secret, name, model, now, outcome) =>
      if s.invite.Some? && now < s.invite.value.expiresAt && s.invite.value.secret == secret
      then Some((Trust(s.stored, id, name, model, s.invite.value.addedBy, now), outcome)) else None
    case Approves(id, name, model, addedBy, now, freshKey, outcome) =>
      if s.edge then Some((Trust(WithIdentity(s.stored, freshKey), id, name, model, addedBy, now), outcome)) else None
    case Removes(id, outcome) =>
      if Trusted(s.stored, id) then Some((Without(s.stored, id, s.invite.None?), outcome)) else None
    case Disconnects(id, now, outcome) =>
      if id in s.connections && s.connections[id] <= 1 && Trusted(s.stored, id)
      then Some((s.stored.(devices := Seen(s.stored.devices, id, now)), outcome)) else None
    case _ => None
  }

  lemma {:induction false} FilterDropsExactlyTheTrusted(key: Option<Key>, devices: seq<Device>, id: DeviceId)
    ensures |Filter(devices, OtherThan(id))| <= |devices|
    ensures |Filter(devices, OtherThan(id))| == |devices| <==> !Trusted(Stored(key, devices), id)
    decreases |devices|
  {
    if devices != [] {
      FilterDropsExactlyTheTrusted(key, devices[1..], id);
      assert devices == [devices[0]] + devices[1..];
    }
  }

  /** A call changes memory and disk by its attempted write alone. */
  lemma CallsChangeTrustByWriting(s: State, call: Call)
    ensures var next := Next(s, call).0;
            var write := Attempted(s, call);
            && next.stored == (if write.Some? && write.value.1.Written? then write.value.0 else s.stored)
            && next.disk == (if write.Some? && !write.value.1.FailedBeforeRename? then write.value.0 else s.disk)
  {
    hide Trust, Seen, Disowned, Filter, Trusted;
    if call.Removes? {
      FilterDropsExactlyTheTrusted(s.stored.key, s.stored.devices, call.id);
      assert s.stored == Stored(s.stored.key, s.stored.devices);
    }
  }

  /** The value of the last write the store reported as done, or the file as opened. */
  function LastWritten(file: Stored, calls: seq<Call>, n: nat): Stored
    requires n <= |calls|
  {
    if n == 0 then file
    else
      var write := Attempted(After(file, calls, n - 1), calls[n - 1]);
      if write.Some? && write.value.1.Written? then write.value.0 else LastWritten(file, calls, n - 1)
  }

  /** Over any run with failing writes, memory holds exactly the last value the store reported as
      written. */
  lemma {:induction false} MemoryIsLastWritten(file: Stored, calls: seq<Call>, n: nat)
    requires n <= |calls|
    ensures After(file, calls, n).stored == LastWritten(file, calls, n)
  {
    hide Next, Attempted;
    if n > 0 {
      MemoryIsLastWritten(file, calls, n - 1);
      CallsChangeTrustByWriting(After(file, calls, n - 1), calls[n - 1]);
    }
  }

  /** The call's write, if any, got past its rename. */
  predicate Renames(s: State, call: Call) {
    Attempted(s, call).Some? && !Attempted(s, call).value.1.FailedBeforeRename?
  }

  /** The last call whose write got past its rename. */
  function LastRename(file: Stored, calls: seq<Call>, n: nat): (r: Option<nat>)
    requires n <= |calls|
    ensures r.Some? ==> r.value < n && Renames(After(file, calls, r.value), calls[r.value])
  {
    if n == 0 then None
    else if Renames(After(file, calls, n - 1), calls[n - 1]) then Some(n - 1)
    else LastRename(file, calls, n - 1)
  }

  /** The file holds what the last rename put there. */
  lemma {:induction false} FileIsLastRenamed(file: Stored, calls: seq<Call>, n: nat)
    requires n <= |calls|
    ensures var last := LastRename(file, calls, n);
            After(file, calls, n).disk
            == if last.None? then file else Attempted(After(file, calls, last.value), calls[last.value]).value.0
  {
    hide Next, Attempted;
    if n > 0 {
      FileIsLastRenamed(file, calls, n - 1);
      CallsChangeTrustByWriting(After(file, calls, n - 1), calls[n - 1]);
    }
  }

  lemma {:induction false} WrittenLast(file: Stored, calls: seq<Call>, n: nat)
    requires n <= |calls|
    ensures var last := LastRename(file, calls, n);
            && (last.None? ==> LastWritten(file, calls, n) == file)
            && (last.Some? && Attempted(After(file, calls, last.value), calls[last.value]).value.1.Written? ==>
                  LastWritten(file, calls, n) == Attempted(After(file, calls, last.value), calls[last.value]).value.0)
  {
    hide Attempted, Next;
    if n > 0 {
      WrittenLast(file, calls, n - 1);
    }
  }

  /** Over any run, memory and file differ if and only if the last write to get past its rename was
      reported as failed and held something other than the last write reported as done.  The finding is
      the first half: no other failure parts them, whatever came before, and this one does unless it
      wrote what was there already.  A restart then reads a list this process never accepted. */
  lemma DiskPartsExactlyAfterRename(file: Stored, calls: seq<Call>, n: nat)
    requires n <= |calls|
    ensures var last := LastRename(file, calls, n);
            After(file, calls, n).stored != After(file, calls, n).disk
            <==> && last.Some?
                 && var write := Attempted(After(file, calls, last.value), calls[last.value]).value;
                    write.1.FailedAfterRename? && write.0 != LastWritten(file, calls, n)
  {
    hide Attempted, After, LastRename, LastWritten;
    MemoryIsLastWritten(file, calls, n);
    FileIsLastRenamed(file, calls, n);
    WrittenLast(file, calls, n);
  }

  // ---------------------------------------------------------------- connections

  function OpenCount(s: State, id: DeviceId): nat {
    if id in s.connections then s.connections[id] else 0
  }

  /** How many connections a device has open, by what happened to it: a close below zero counts for
      nothing and a removal closes all. */
  function Opened(file: Stored, calls: seq<Call>, n: nat, id: DeviceId): nat
    requires n <= |calls|
  {
    if n == 0 then 0
    else
      var before := Opened(file, calls, n - 1, id);
      match calls[n - 1]
      case Connects(device) => if device == id then before + 1 else before
      case Disconnects(device, _, _) => if device == id && before > 0 then before - 1 else before
      case Removes(device, _) => if device == id && Next(After(file, calls, n - 1), calls[n - 1]).1.Done? then 0 else before
      case _ => before
  }

  lemma CallCounts(s: State, call: Call, id: DeviceId)
    requires OpenOnly(s)
    ensures var (next, answer) := Next(s, call);
            var before := OpenCount(s, id);
            OpenCount(next, id) == match call
                                   case Connects(device) => if device == id then before + 1 else before
                                   case Disconnects(device, _, _) => if device == id && before > 0 then before - 1 else before
                                   case Removes(device, _) => if device == id && answer.Done? then 0 else before
                                   case _ => before
  {
    hide Filter, Seen, Trusted, Disowned, Trust, Without, WithIdentity;
  }

  /** Over any run the server's count is the number of connections still open, and a device has an
      entry exactly while it has one. */
  lemma {:induction false} ConnectionsAreCounted(file: Stored, calls: seq<Call>, n: nat, id: DeviceId)
    requires n <= |calls|
    ensures OpenCount(After(file, calls, n), id) == Opened(file, calls, n, id)
    ensures id in After(file, calls, n).connections <==> Opened(file, calls, n, id) > 0
  {
    hide Next;
    EveryCountIsOpen(file, calls, n);
    if n > 0 {
      EveryCountIsOpen(file, calls, n - 1);
      ConnectionsAreCounted(file, calls, n - 1, id);
      CallCounts(After(file, calls, n - 1), calls[n - 1], id);
    }
  }

  lemma {:induction false} EveryCountIsOpen(file: Stored, calls: seq<Call>, n: nat)
    requires n <= |calls|
    ensures OpenOnly(After(file, calls, n))
  {
    hide Next;
    if n > 0 {
      EveryCountIsOpen(file, calls, n - 1);
      ConnectionsStayOpen(After(file, calls, n - 1), calls[n - 1]);
    }
  }

  function Opens(calls: seq<Call>, n: nat, id: DeviceId): nat
    requires n <= |calls|
  {
    if n == 0 then 0 else Opens(calls, n - 1, id) + if calls[n - 1] == Connects(id) then 1 else 0
  }

  function Closes(calls: seq<Call>, n: nat, id: DeviceId): nat
    requires n <= |calls|
  {
    if n == 0 then 0
    else Closes(calls, n - 1, id) + if calls[n - 1].Disconnects? && calls[n - 1].id == id then 1 else 0
  }

  /** From the calls alone: while nobody asks to remove the device and no close comes without an open,
      the count is the opens less the closes. */
  lemma {:induction false} CountIsOpensLessCloses(file: Stored, calls: seq<Call>, n: nat, id: DeviceId)
    requires n <= |calls| && forall i :: 0 <= i < n ==> !(calls[i].Removes? && calls[i].id == id)
    requires forall i :: 0 <= i <= n ==> Closes(calls, i, id) <= Opens(calls, i, id)
    ensures OpenCount(After(file, calls, n), id) == Opens(calls, n, id) - Closes(calls, n, id)
  {
    hide Next, After, OpenCount;
    ConnectionsAreCounted(file, calls, n, id);
    if n > 0 {
      CountIsOpensLessCloses(file, calls, n - 1, id);
      ConnectionsAreCounted(file, calls, n - 1, id);
    }
  }

  /** The call takes the device's labels away: its last connection closes, or it is removed. */
  predicate Forgets(s: State, call: Call, id: DeviceId) {
    || (call.Disconnects? && call.id == id && id in s.connections && s.connections[id] <= 1)
    || (call.Removes? && call.id == id && Next(s, call).1.Done?)
  }

  /** The device the connection was last noted for, unless it has been forgotten since. */
  function LastNoted(file: Stored, calls: seq<Call>, n: nat, connection: string): Option<DeviceId>
    requires n <= |calls|
  {
    if n == 0 then None
    else
      var before := LastNoted(file, calls, n - 1, connection);
      var call := calls[n - 1];
      if call.Notes? && call.connection == connection then Some(call.id)
      else if before.Some? && Forgets(After(file, calls, n - 1), call, before.value) then None
      else before
  }

  function LabelOf(s: State, connection: string): Option<DeviceId> {
    if connection in s.protocolConnections then Some(s.protocolConnections[connection]) else None
  }

  lemma CallLabels(s: State, call: Call, connection: string)
    ensures var before := LabelOf(s, connection);
            LabelOf(Next(s, call).0, connection)
            == if call.Notes? && call.connection == connection then Some(call.id)
               else if before.Some? && Forgets(s, call, before.value) then None
               else before
  {
    hide Filter, Seen, Trusted, Trust, Without, WithIdentity;
  }

  /** Over any run a protocol connection is labelled with the device it was last noted for, until that
      device's last connection closes or it is removed. */
  lemma {:induction false} LabelIsLastNoted(file: Stored, calls: seq<Call>, n: nat, connection: string)
    requires n <= |calls|
    ensures LabelOf(After(file, calls, n), connection) == LastNoted(file, calls, n, connection)
  {
    hide Next, Forgets;
    if n > 0 {
      LabelIsLastNoted(file, calls, n - 1, connection);
      CallLabels(After(file, calls, n - 1), calls[n - 1], connection);
    }
  }

  // ---------------------------------------------------------------- what every call keeps

  /** What the program itself leaves on disk: one entry per device, and a key while there are any. */
  predicate Coherent(s: Stored) {
    UniqueIds(s) && (s.devices != [] ==> HasIdentity(s))
  }

  predicate InviteHasKey(s: State) {
    s.invite.Some? ==> HasIdentity(s.stored)
  }

  predicate OpenOnly(s: State) {
    forall d :: d in s.connections ==> s.connections[d] > 0
  }

  predicate Inv(s: State) {
    Coherent(s.stored) && Coherent(s.disk) && InviteHasKey(s) && OpenOnly(s)
  }

  lemma {:induction false} FilteredIdsStayUnique(key: Option<Key>, devices: seq<Device>, id: DeviceId)
    requires UniqueIds(Stored(key, devices))
    ensures UniqueIds(Stored(key, Filter(devices, OtherThan(id))))
    ensures forall d :: d in Filter(devices, OtherThan(id)) ==> d.id != id
    decreases |devices|
  {
    if devices != [] {
      var rest := devices[1..];
      FilteredIdsStayUnique(key, rest, id);
      assert forall d :: d in rest ==> d.id != devices[0].id;
    }
  }

  lemma TrustKeepsIds(s: Stored, id: DeviceId, name: string, model: Option<string>, addedBy: string, now: nat)
    requires UniqueIds(s)
    ensures UniqueIds(Trust(s, id, name, model, addedBy, now))
  {
    FilteredIdsStayUnique(s.key, s.devices, id);
  }

  lemma SeenKeepsIds(s: Stored, id: DeviceId, now: nat, other: DeviceId)
    requires UniqueIds(s)
    ensures UniqueIds(s.(devices := Seen(s.devices, id, now)))
    ensures Trusted(s.(devices := Seen(s.devices, id, now)), other) <==> Trusted(s, other)
  {
    var seen := Seen(s.devices, id, now);
    assert forall i :: 0 <= i < |seen| ==> seen[i].id == s.devices[i].id;
    if Trusted(s, other) {
      var i :| 0 <= i < |s.devices| && s.devices[i].id == other;
      assert seen[i] in seen;
    }
  }

  lemma AttemptsAreCoherent(s: State, call: Call)
    requires Coherent(s.stored) && InviteHasKey(s)
    ensures Attempted(s, call).Some? ==> Coherent(Attempted(s, call).value.0)
  {
    hide UniqueIds, Filter, Seen, Trusted;
    match call
    case Redeems(id, secret, name, model, now, outcome) =>
      if s.invite.Some? {
        TrustKeepsIds(s.stored, id, name, model, s.invite.value.addedBy, now);
      }
    case Approves(id, name, model, addedBy, now, freshKey, outcome) =>
      KeyKeepsIds(s.stored, WithIdentity(s.stored, freshKey).key);
      TrustKeepsIds(WithIdentity(s.stored, freshKey), id, name, model, addedBy, now);
    case Removes(id, outcome) =>
      FilteredIdsStayUnique(s.stored.key, s.stored.devices, id);
      KeyKeepsIds(Stored(s.stored.key, Filter(s.stored.devices, OtherThan(id))), None);
      assert s.stored.devices == [] ==> Filter(s.stored.devices, OtherThan(id)) == [] by { NothingToFilter(OtherThan(id)); }
    case Disconnects(id, now, outcome) => SeenKeepsIds(s.stored, id, now, id);
    case Invites(addedBy, now, secret, freshKey, outcome) =>
      KeyKeepsIds(s.stored, WithIdentity(s.stored, freshKey).key);
    case _ => KeyKeepsIds(s.stored, None);
  }

  lemma NothingToFilter(p: Device -> bool)
    ensures Filter([], p) == []
  {
  }

  lemma KeyKeepsIds(s: Stored, key: Option<Key>)
    requires UniqueIds(s)
    ensures UniqueIds(s.(key := key))
  {
  }

  lemma InvitesKeepTheirKey(s: State, call: Call)
    requires InviteHasKey(s)
    ensures InviteHasKey(Next(s, call).0)
  {
    hide Filter, Seen, Trusted, Disowned;
  }

  lemma ConnectionsStayOpen(s: State, call: Call)
    requires OpenOnly(s)
    ensures OpenOnly(Next(s, call).0)
  {
    hide Filter, Seen, Trusted, Disowned, Trust, Without;
  }

  lemma CallKeepsInv(s: State, call: Call)
    requires Inv(s)
    ensures Inv(Next(s, call).0)
  {
    hide Next, Attempted, Coherent, InviteHasKey, OpenOnly;
    CallsChangeTrustByWriting(s, call);
    AttemptsAreCoherent(s, call);
    InvitesKeepTheirKey(s, call);
    ConnectionsStayOpen(s, call);
  }

  lemma FreshIsCoherent(file: Stored)
    requires Coherent(file)
    ensures Inv(State(file, file, None, false, map[], map[]))
  {
  }

  /** In every reachable state, whatever writes failed: one entry per device, an identity key while a
      device is listed or an invite is pending, every counted device has a connection open, and the
      file would open into a coherent state again. */
  lemma {:induction false} EveryStateIsCoherent(file: Stored, calls: seq<Call>, n: nat)
    requires Coherent(file) && n <= |calls|
    ensures Inv(After(file, calls, n))
  {
    hide Next, Inv;
    if n > 0 {
      EveryStateIsCoherent(file, calls, n - 1);
      CallKeepsInv(After(file, calls, n - 1), calls[n - 1]);
    } else {
      FreshIsCoherent(file);
    }
  }

  // ---------------------------------------------------------------- trust has a cause

  /** The call succeeded in trusting the device. */
  predicate Grants(s: State, call: Call, id: DeviceId) {
    (call.Redeems? || call.Approves?) && call.id == id && Next(s, call).1.Done?
  }

  predicate Revokes(s: State, call: Call, id: DeviceId) {
    call.Removes? && call.id == id && Next(s, call).1.Done?
  }

  lemma FilterTrust(s: Stored, id: DeviceId, other: DeviceId)
    ensures Trusted(Stored(s.key, Filter(s.devices, OtherThan(id))), other) <==> Trusted(s, other) && other != id
  {
  }

  lemma TrustAdds(s: Stored, id: DeviceId, name: string, model: Option<string>, addedBy: string, now: nat, other: DeviceId)
    ensures Trusted(Trust(s, id, name, model, addedBy, now), other) <==> Trusted(s, other) || other == id
  {
    var next := Trust(s, id, name, model, addedBy, now);
    FilterTrust(s, id, other);
    assert next.devices[|next.devices| - 1].id == id;
    if Trusted(s, other) && other != id {
      var d :| d in s.devices && d.id == other;
      assert d in Filter(s.devices, OtherThan(id)) && d in next.devices;
    }
  }

  lemma KeyKeepsTrust(s: Stored, key: Option<Key>, id: DeviceId)
    ensures Trusted(s.(key := key), id) == Trusted(s, id)
  {
  }

  /** Whom the attempted write would trust. */
  lemma AttemptTrusts(s: State, call: Call, id: DeviceId)
    requires UniqueIds(s.stored)
    ensures var write := Attempted(s, call);
            write.Some? ==>
              (Trusted(write.value.0, id)
               <==> if (call.Redeems? || call.Approves?) && call.id == id then true
                    else if call.Removes? && call.id == id then false
                    else Trusted(s.stored, id))
  {
    hide Trusted, Filter, Seen, Trust;
    match call
    case Redeems(device, secret, name, model, now, outcome) =>
      if s.invite.Some? {
        TrustAdds(s.stored, device, name, model, s.invite.value.addedBy, now, id);
      }
    case Approves(device, name, model, addedBy, now, freshKey, outcome) =>
      TrustAdds(WithIdentity(s.stored, freshKey), device, name, model, addedBy, now, id);
      KeyKeepsTrust(s.stored, WithIdentity(s.stored, freshKey).key, id);
    case Removes(device, outcome) =>
      FilterTrust(s.stored, device, id);
      KeyKeepsTrust(Stored(s.stored.key, Filter(s.stored.devices, OtherThan(device))), None, id);
    case Disconnects(device, now, outcome) => SeenKeepsIds(s.stored, device, now, id);
    case Invites(addedBy, now, secret, freshKey, outcome) =>
      KeyKeepsTrust(s.stored, WithIdentity(s.stored, freshKey).key, id);
    case _ => KeyKeepsTrust(s.stored, None, id);
  }

  /** Pairing and removal report success exactly when their write succeeded. */
  lemma DoneMeansWritten(s: State, call: Call)
    requires call.Redeems? || call.Approves? || call.Removes?
    ensures Next(s, call).1.Done? <==> Attempted(s, call).Some? && Attempted(s, call).value.1.Written?
  {
    hide Trust, Seen, Disowned, Filter, Trusted;
    if call.Removes? {
      FilterDropsExactlyTheTrusted(s.stored.key, s.stored.devices, call.id);
      assert s.stored == Stored(s.stored.key, s.stored.devices);
    }
  }

  /** How one call changes who is trusted. */
  lemma CallChangesTrust(s: State, call: Call, id: DeviceId)
    requires UniqueIds(s.stored)
    ensures Trusted(Next(s, call).0.stored, id)
            <==> if Grants(s, call, id) then true else if Revokes(s, call, id) then false else Trusted(s.stored, id)
  {
    hide Next, Attempted, Trusted;
    CallsChangeTrustByWriting(s, call);
    AttemptTrusts(s, call, id);
    if call.Redeems? || call.Approves? || call.Removes? {
      DoneMeansWritten(s, call);
    }
  }

  predicate GrantedAt(file: Stored, calls: seq<Call>, i: nat, id: DeviceId)
    requires i < |calls|
  {
    Grants(After(file, calls, i), calls[i], id)
  }

  predicate RevokedAt(file: Stored, calls: seq<Call>, i: nat, id: DeviceId)
    requires i < |calls|
  {
    Revokes(After(file, calls, i), calls[i], id)
  }

  predicate Unrevoked(file: Stored, calls: seq<Call>, i: nat, n: nat, id: DeviceId)
    requires i <= n <= |calls|
  {
    forall k :: i <= k < n ==> !RevokedAt(file, calls, k, id)
  }

  /** Some call granted the trust and none has revoked it since; or the file held it from the start. */
  predicate HasCause(file: Stored, calls: seq<Call>, n: nat, id: DeviceId)
    requires n <= |calls|
  {
    || (Trusted(file, id) && Unrevoked(file, calls, 0, n, id))
    || exists i :: 0 <= i < n && GrantedAt(file, calls, i, id) && Unrevoked(file, calls, i + 1, n, id)
  }

  lemma CauseStep(file: Stored, calls: seq<Call>, n: nat, id: DeviceId)
    requires 0 < n <= |calls|
    requires !(GrantedAt(file, calls, n - 1, id) && RevokedAt(file, calls, n - 1, id))
    ensures HasCause(file, calls, n, id)
            <==> if GrantedAt(file, calls, n - 1, id) then true
                 else if RevokedAt(file, calls, n - 1, id) then false
                 else HasCause(file, calls, n - 1, id)
  {
    hide GrantedAt, RevokedAt, Trusted;
    if GrantedAt(file, calls, n - 1, id) {
      assert Unrevoked(file, calls, n - 1 + 1, n, id);
    } else if !RevokedAt(file, calls, n - 1, id) {
      if HasCause(file, calls, n, id) && !(Trusted(file, id) && Unrevoked(file, calls, 0, n, id)) {
        var i :| 0 <= i < n && GrantedAt(file, calls, i, id) && Unrevoked(file, calls, i + 1, n, id);
        assert i < n - 1 && Unrevoked(file, calls, i + 1, n - 1, id);
      }
      if HasCause(file, calls, n - 1, id) && !(Trusted(file, id) && Unrevoked(file, calls, 0, n - 1, id)) {
        var i :| 0 <= i < n - 1 && GrantedAt(file, calls, i, id) && Unrevoked(file, calls, i + 1, n - 1, id);
        assert Unrevoked(file, calls, i + 1, n, id);
      }
    }
  }

  lemma CauseAtStart(file: Stored, calls: seq<Call>, id: DeviceId)
    ensures HasCause(file, calls, 0, id) <==> Trusted(file, id)
  {
    hide Trusted, RevokedAt, GrantedAt;
  }

  lemma IdsAreUnique(file: Stored, calls: seq<Call>, n: nat)
    requires Coherent(file) && n <= |calls|
    ensures UniqueIds(After(file, calls, n).stored)
  {
    hide After, UniqueIds;
    EveryStateIsCoherent(file, calls, n);
  }

  /** A device is trusted exactly when a redemption or an approval trusted it and no removal has
      succeeded since. */
  lemma {:induction false} TrustHasACause(file: Stored, calls: seq<Call>, n: nat, id: DeviceId)
    requires Coherent(file) && n <= |calls|
    ensures Trusted(After(file, calls, n).stored, id) <==> HasCause(file, calls, n, id)
  {
    hide HasCause, Next, Trusted, Coherent;
    if n == 0 {
      CauseAtStart(file, calls, id);
    } else {
      TrustHasACause(file, calls, n - 1, id);
      IdsAreUnique(file, calls, n - 1);
      CallChangesTrust(After(file, calls, n - 1), calls[n - 1], id);
      CauseStep(file, calls, n, id);
    }
  }

  // ---------------------------------------------------------------- what is recorded

  /** The device's entry. */
  function Find(devices: seq<Device>, id: DeviceId): Option<Device> {
    if devices == [] then None else if devices[0].id == id then Some(devices[0]) else Find(devices[1..], id)
  }

  lemma {:induction false} FindAfterFilter(devices: seq<Device>, id: DeviceId, added: Device, other: DeviceId)
    requires added.id == id
    ensures Find(Filter(devices, OtherThan(id)) + [added], other) == if other == id then Some(added) else Find(devices, other)
    decreases |devices|
  {
    if devices != [] {
      FindAfterFilter(devices[1..], id, added, other);
      if devices[0].id != id {
        assert (Filter(devices, OtherThan(id)) + [added])[1..] == Filter(devices[1..], OtherThan(id)) + [added];
      }
    }
  }

  /** Pairing records the device under its labels and touches no other device.  A name is never empty,
      nor is a model, and both fit. */
  lemma PairingRecordsTheDevice(s: Stored, id: DeviceId, name: string, model: Option<string>, addedBy: string, now: nat, other: DeviceId)
    ensures var found := Find(Trust(s, id, name, model, addedBy, now).devices, other);
            if other == id then
              && found.Some? && found.value.addedAt == now && found.value.addedBy == Some(addedBy) && found.value.lastSeen.None?
              && found.value.name != "" && T.ByteLength(found.value.name) <= MAX_LABEL_BYTES
              && (Label(name) != "" ==> found.value.name == Label(name))
              && (found.value.model.None? <==> model.None? || Label(model.value) == "")
              && (found.value.model.Some? ==> found.value.model.value == Label(model.value)
                                              && T.ByteLength(found.value.model.value) <= MAX_LABEL_BYTES)
            else found == Find(s.devices, other)
  {
    hide Label, Filter, Find;
    var next := Trust(s, id, name, model, addedBy, now);
    FindAfterFilter(s.devices, id, next.devices[|next.devices| - 1], other);
    LabelsFit(name);
    if model.Some? {
      LabelsFit(model.value);
    }
    DefaultNameFits();
  }

  lemma DefaultNameFits()
    ensures T.ByteLength("Unnamed device") <= MAX_LABEL_BYTES
  {
    BytesAreFew("Unnamed device");
  }

  lemma {:induction false} BytesAreFew(s: string)
    ensures T.ByteLength(s) <= 4 * |s|
    decreases |s|
  {
    if s != "" {
      BytesAreFew(s[1..]);
    }
  }

  lemma {:induction false} FindSeen(devices: seq<Device>, id: DeviceId, now: nat, other: DeviceId)
    ensures var before := Find(devices, other);
            Find(Seen(devices, id, now), other)
            == if other == id && before.Some? then Some(before.value.(lastSeen := Some(now))) else before
    decreases |devices|
  {
    if devices != [] && devices[0].id != id {
      FindSeen(devices[1..], id, now, other);
    }
  }

  lemma {:induction false} FoundIsTrusted(s: Stored, id: DeviceId)
    ensures Trusted(s, id) <==> Find(s.devices, id).Some?
    decreases |s.devices|
  {
    if s.devices != [] {
      FoundIsTrusted(s.(devices := s.devices[1..]), id);
      assert s.devices == [s.devices[0]] + s.devices[1..];
    }
  }

  /** The close of a device's last connection frees the names of its protocol connections, and stamps
      that device alone if the write succeeds; a failed write costs the stamp and nothing else.
      Earlier closes change nothing but the count. */
  lemma LastCloseStampsTheDevice(s: State, id: DeviceId, now: nat, outcome: WriteOutcome, other: DeviceId)
    requires id in s.connections && OpenOnly(s)
    ensures var next := Disconnected(s, id, now, outcome);
            var before := Find(s.stored.devices, other);
            if s.connections[id] > 1 then
              next.stored == s.stored && next.connections[id] == s.connections[id] - 1
            else
              && id !in next.connections && (forall k :: k in next.protocolConnections ==> next.protocolConnections[k] != id)
              && (!outcome.Written? ==> next.stored == s.stored)
              && (outcome.Written? ==>
                    Find(next.stored.devices, other)
                    == if other == id && before.Some? then Some(before.value.(lastSeen := Some(now))) else before)
  {
    FindSeen(s.stored.devices, id, now, other);
    FoundIsTrusted(s.stored, id);
    hide Seen, Find, Trusted;
  }

  /** An invite made at `t` is good for ten minutes from then, or to the end of time if that is sooner, and
      for its secret alone. */
  lemma InviteIsGoodForTenMinutes(s: State, addedBy: string, t: nat, secret: seq<bv8>, freshKey: nat, outcome: WriteOutcome,
                                  id: DeviceId, given: seq<bv8>, name: string, model: Option<string>, now: nat)
    requires CreateInvite(s, addedBy, t, secret, freshKey, outcome).1.Done?
    ensures RedeemInvite(CreateInvite(s, addedBy, t, secret, freshKey, outcome).0, id, given, name, model, now, Written).1.Done?
            <==> now < t + 600_000 && now < 0xffff_ffff_ffff_ffff && given == secret
  {
    hide Trust;
  }

  /** The parting is real: an approval reported as failed can leave the device on the file, so the
      next start trusts a device this process refused. */
  lemma RefusedPairingReachesTheFile(s: State, id: DeviceId, name: string, model: Option<string>, addedBy: string, now: nat, freshKey: nat)
    requires s.edge && !Trusted(s.stored, id)
    ensures var (next, answer) := Approve(s, id, name, model, addedBy, now, freshKey, FailedAfterRename);
            answer.StorageFailed? && !Trusted(next.stored, id) && Trusted(next.disk, id)
  {
    TrustAdds(WithIdentity(s.stored, freshKey), id, name, model, addedBy, now, id);
    hide Trust;
  }

  // ---------------------------------------------------------------- invites are single-use

  function Count(file: Stored, calls: seq<Call>, n: nat, which: Call -> bool): nat
    requires n <= |calls|
  {
    if n == 0 then 0
    else
      Count(file, calls, n - 1, which)
      + if which(calls[n - 1]) && Next(After(file, calls, n - 1), calls[n - 1]).1.Done? then 1 else 0
  }

  function IsInvite(): Call -> bool {
    (c: Call) => c.Invites?
  }

  function IsRedemption(): Call -> bool {
    (c: Call) => c.Redeems?
  }

  function Pending(s: State): nat {
    if s.invite.Some? then 1 else 0
  }

  /** One call spends what it redeems. */
  lemma CallSpendsInvite(s: State, call: Call)
    ensures var (next, answer) := Next(s, call);
            Pending(next) + (if call.Redeems? && answer.Done? then 1 else 0)
            <= Pending(s) + if call.Invites? && answer.Done? then 1 else 0
  {
    hide Trust, Seen, Disowned, Filter, Trusted, Without;
  }

  lemma CallNeedsTheEdge(s: State, call: Call, id: DeviceId)
    requires !s.edge && s.invite.None? && !call.AttachesEdge?
    ensures !Next(s, call).0.edge && Next(s, call).0.invite.None? && !Grants(s, call, id)
  {
    hide Trust, Seen, Disowned, Filter, Trusted, Without;
  }

  /** Without a network edge nothing pairs: no invite exists and no call trusts a device. */
  lemma {:induction false} PairingNeedsTheEdge(file: Stored, calls: seq<Call>, n: nat, id: DeviceId)
    requires n <= |calls| && forall i :: 0 <= i < n ==> !calls[i].AttachesEdge?
    ensures !After(file, calls, n).edge && After(file, calls, n).invite.None?
    ensures forall i :: 0 <= i < n ==> !GrantedAt(file, calls, i, id)
  {
    hide Next, Grants;
    if n > 0 {
      PairingNeedsTheEdge(file, calls, n - 1, id);
      CallNeedsTheEdge(After(file, calls, n - 1), calls[n - 1], id);
    }
  }

  lemma CallKeepsTheEdge(s: State, call: Call)
    ensures Next(s, call).0.edge == (s.edge || call.AttachesEdge?)
    ensures (call.Invites? || call.Approves?) ==> (Next(s, call).1.Unavailable? <==> !s.edge)
  {
    hide Trust, Seen, Disowned, Filter, Trusted, Without, WithIdentity;
  }

  /** Over any run, inviting and approving are unavailable exactly until a network edge was attached. */
  lemma {:induction false} AvailableOnceAttached(file: Stored, calls: seq<Call>, n: nat)
    requires n < |calls|
    ensures After(file, calls, n).edge <==> exists i :: 0 <= i < n && calls[i].AttachesEdge?
    ensures calls[n].Invites? || calls[n].Approves? ==>
              (Answer(file, calls, n).Unavailable? <==> forall i :: 0 <= i < n ==> !calls[i].AttachesEdge?)
  {
    hide Next;
    CallKeepsTheEdge(After(file, calls, n), calls[n]);
    if n > 0 {
      AvailableOnceAttached(file, calls, n - 1);
      CallKeepsTheEdge(After(file, calls, n - 1), calls[n - 1]);
    }
  }

  /** Redemptions never outnumber the invites created, and a pending invite is one still unspent. */
  lemma {:induction false} RedemptionsNeverOutnumberInvites(file: Stored, calls: seq<Call>, n: nat)
    requires n <= |calls|
    ensures Count(file, calls, n, IsRedemption()) + Pending(After(file, calls, n)) <= Count(file, calls, n, IsInvite())
  {
    hide Next;
    if n > 0 {
      RedemptionsNeverOutnumberInvites(file, calls, n - 1);
      CallSpendsInvite(After(file, calls, n - 1), calls[n - 1]);
    }
  }

  // ---------------------------------------------------------------- which invite is good

  predicate Created(file: Stored, calls: seq<Call>, i: nat)
    requires i < |calls|
  {
    calls[i].Invites? && Answer(file, calls, i).Done?
  }

  /** The call ends the invite made by call `i`: a cancel, another invite, its redemption, or any attempt
      after it expired. */
  predicate EndsInvite(file: Stored, calls: seq<Call>, i: nat, k: nat)
    requires i < |calls| && k < |calls|
  {
    && calls[i].Invites?
    && (|| calls[k].Cancels?
        || Created(file, calls, k)
        || (calls[k].Redeems? && calls[k].now >= Expiry(calls[i].now))
        || (calls[k].Redeems? && calls[k].secret == calls[i].secret && calls[k].outcome.Written?))
  }

  /** The invite made by call `i` is still good before call `n`. */
  predicate Live(file: Stored, calls: seq<Call>, i: nat, n: nat)
    requires i < n <= |calls|
  {
    Created(file, calls, i) && forall k :: i < k < n ==> !EndsInvite(file, calls, i, k)
  }

  function InviteOf(call: Call): Invite
    requires call.Invites?
  {
    Invite(call.secret, call.addedBy, Expiry(call.now))
  }

  /** What one call does to the pending invite. */
  lemma CallTurnsInvite(s: State, call: Call)
    ensures var (next, answer) := Next(s, call);
            next.invite == if call.Invites? && answer.Done? then Some(InviteOf(call))
                           else if call.Cancels? then None
                           else if s.invite.Some? && call.Redeems?
                                   && (|| call.now >= s.invite.value.expiresAt
                                       || (call.secret == s.invite.value.secret && call.outcome.Written?))
                           then None
                           else s.invite
  {
    hide Trust, Seen, Disowned, Filter, Trusted, Without, WithIdentity, HasIdentity;
  }

  /** The pending invite is the one made by the call that is live, if any is. */
  predicate PendingIsLive(file: Stored, calls: seq<Call>, n: nat)
    requires n <= |calls|
  {
    var invite := After(file, calls, n).invite;
    && (invite.Some? ==> exists i :: 0 <= i < n && Live(file, calls, i, n))
    && (forall i :: 0 <= i < n && Live(file, calls, i, n) ==> invite == Some(InviteOf(calls[i])))
  }

  lemma LiveStep(file: Stored, calls: seq<Call>, i: nat, n: nat)
    requires i < n < |calls|
    ensures Live(file, calls, i, n + 1) <==> Live(file, calls, i, n) && !EndsInvite(file, calls, i, n)
  {
    hide Answer, EndsInvite;
  }

  lemma PendingStep(file: Stored, calls: seq<Call>, n: nat)
    requires n < |calls| && PendingIsLive(file, calls, n)
    ensures PendingIsLive(file, calls, n + 1)
  {
    hide Next, Live, Answer;
    var s, call, next := After(file, calls, n), calls[n], After(file, calls, n + 1);
    CallTurnsInvite(s, call);
    AnswerIsNext(file, calls, n);
    JustCreatedIsLive(file, calls, n);
    LiveWasCreated(file, calls, n);
    LiveWasCreated(file, calls, n + 1);
    hide After;
    forall i | 0 <= i < n
      ensures Live(file, calls, i, n + 1) <==> Live(file, calls, i, n) && !EndsInvite(file, calls, i, n)
    {
      LiveStep(file, calls, i, n);
    }
    if next.invite.Some? && !Created(file, calls, n) {
      var i :| 0 <= i < n && Live(file, calls, i, n);
      assert Live(file, calls, i, n + 1);
    }
    var m := n + 1;
    assert next.invite.Some? ==> exists i :: 0 <= i < m && Live(file, calls, i, m);
    forall i | 0 <= i < m && Live(file, calls, i, m)
      ensures next.invite == Some(InviteOf(calls[i]))
    {
      if i < n {
        assert Live(file, calls, i, n) && !EndsInvite(file, calls, i, n);
        assert s.invite == Some(InviteOf(calls[i]));
      } else {
        assert Created(file, calls, n);
      }
    }
  }

  lemma AnswerIsNext(file: Stored, calls: seq<Call>, n: nat)
    requires n < |calls|
    ensures Next(After(file, calls, n), calls[n]) == (After(file, calls, n + 1), Answer(file, calls, n))
  {
    hide Next;
  }

  lemma JustCreatedIsLive(file: Stored, calls: seq<Call>, n: nat)
    requires n < |calls|
    ensures Live(file, calls, n, n + 1) <==> Created(file, calls, n)
  {
    hide Answer;
  }

  lemma LiveWasCreated(file: Stored, calls: seq<Call>, n: nat)
    requires n <= |calls|
    ensures forall i :: 0 <= i < n && Live(file, calls, i, n) ==> Created(file, calls, i)
  {
    hide Answer, EndsInvite;
  }

  lemma {:induction false} PendingInviteIsLive(file: Stored, calls: seq<Call>, n: nat)
    requires n <= |calls|
    ensures PendingIsLive(file, calls, n)
  {
    if n > 0 {
      PendingInviteIsLive(file, calls, n - 1);
      PendingStep(file, calls, n - 1);
    }
  }

  /** Over any run, how every attempt to redeem is answered follows from the calls: there is no invite
      unless some call made one that nothing has ended since, and then its age, its secret and the write
      decide. */
  lemma RedemptionIsDecidedByTheLiveInvite(file: Stored, calls: seq<Call>, n: nat)
    requires n < |calls| && calls[n].Redeems?
    ensures (forall i :: 0 <= i < n ==> !Live(file, calls, i, n)) ==> Answer(file, calls, n) == NoInvite
    ensures forall i :: 0 <= i < n && Live(file, calls, i, n) ==>
                          Answer(file, calls, n)
                          == if calls[n].now >= Expiry(calls[i].now) then ExpiredInvite
                             else if calls[n].secret != calls[i].secret then WrongSecret
                             else if calls[n].outcome.Written? then Done
                             else StorageFailed
  {
    hide Live, After, Trust;
    PendingInviteIsLive(file, calls, n);
    LiveWasCreated(file, calls, n);
  }

  /** After a cancel no redemption succeeds until another invite is made, whatever devices are listed and
      however the cancel's write ended. */
  lemma CancelledInviteIsDead(file: Stored, calls: seq<Call>, i: nat, n: nat)
    requires i < n < |calls| && calls[i].Cancels? && calls[n].Redeems?
    requires forall k :: i < k < n ==> !Created(file, calls, k)
    ensures Answer(file, calls, n) == NoInvite
  {
    hide Answer, Created;
    forall m | 0 <= m < n
      ensures !Live(file, calls, m, n)
    {
      CancelEnds(file, calls, m, i, n);
    }
    RedemptionIsDecidedByTheLiveInvite(file, calls, n);
  }

  lemma CancelEnds(file: Stored, calls: seq<Call>, m: nat, i: nat, n: nat)
    requires m < n <= |calls| && i < n && calls[i].Cancels?
    requires forall k :: i < k < n ==> !Created(file, calls, k)
    ensures !Live(file, calls, m, n)
  {
    hide Answer;
    assert m < i && calls[m].Invites? ==> EndsInvite(file, calls, m, i);
  }

  /** A redemption that succeeds uses the secret of the invite made last, in its ten minutes, and it is
      the first to do so since. */
  lemma RedemptionUsesTheLastInvite(file: Stored, calls: seq<Call>, n: nat) returns (i: nat)
    requires n < |calls| && calls[n].Redeems? && Answer(file, calls, n).Done?
    ensures i < n && Created(file, calls, i) && calls[i].secret == calls[n].secret && calls[n].now < Expiry(calls[i].now)
    ensures forall k :: i < k < n ==> !Created(file, calls, k) && !calls[k].Cancels?
    ensures forall k :: i < k < n && calls[k].Redeems? ==> !Answer(file, calls, k).Done? && calls[k].now < Expiry(calls[i].now)
  {
    hide Answer, Live, Created;
    RedemptionIsDecidedByTheLiveInvite(file, calls, n);
    i :| 0 <= i < n && Live(file, calls, i, n);
    LiveWasCreated(file, calls, n);
    NothingSinceLive(file, calls, i, n);
  }

  lemma NothingSinceLive(file: Stored, calls: seq<Call>, i: nat, n: nat)
    requires i < n <= |calls| && Live(file, calls, i, n)
    ensures forall k :: i < k < n ==> !Created(file, calls, k) && !calls[k].Cancels?
    ensures forall k :: i < k < n && calls[k].Redeems? ==> !Answer(file, calls, k).Done? && calls[k].now < Expiry(calls[i].now)
  {
    hide Answer;
    forall k | i < k < n
      ensures !Created(file, calls, k) && !calls[k].Cancels?
      ensures calls[k].Redeems? ==> !Answer(file, calls, k).Done? && calls[k].now < Expiry(calls[i].now)
    {
      assert !EndsInvite(file, calls, i, k);
      if calls[k].Redeems? {
        LiveEarlier(file, calls, i, k, n);
        RedemptionIsDecidedByTheLiveInvite(file, calls, k);
      }
    }
  }

  lemma LiveEarlier(file: Stored, calls: seq<Call>, i: nat, k: nat, n: nat)
    requires i < k <= n <= |calls| && Live(file, calls, i, n)
    ensures Live(file, calls, i, k)
  {
    hide Answer, EndsInvite;
  }
}
