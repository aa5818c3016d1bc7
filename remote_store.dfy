/**
 * The server-side tables the chat setup touches, as the client sees them:
 * `user_devices` (one row per registered device), `party_room_keys` (one sealed
 * room key per party and recipient) and `party_members`.
 *
 * Other devices run the same setup concurrently.  Their effect is modelled as an
 * environment `schedule`: before each of our calls on `party_room_keys` the next
 * turn fills some EMPTY slots (other writers also only insert if absent) and says
 * whether our own write, if any, reaches the database.  The client never inspects
 * the result of a write, so a failed write is simply one that does not land.
 * `log` records the calls we issue, in order.
 */
module Remote {
  import opened Wrappers
  import opened Crypto

  /** The label under which a user's own device is registered. */
  const DefaultLabel: string := "default"

  datatype DeviceRow = DeviceRow(id: string, userId: string, deviceLabel: string, publicKey: Option<PublicKey>)

  /** A `party_room_keys` row: the sealed key, the sender's device id and the sender's public key. */
  datatype SealedEntry = SealedEntry(payload: Option<Sealed>, senderDeviceId: string, senderPublicKey: Option<PublicKey>)

  /** The key of `party_room_keys`: a party and the recipient user. */
  datatype Slot = Slot(partyId: string, userId: string)

  /** One step of the other writers: the entries they insert, and whether our pending write lands. */
  datatype Turn = Turn(fill: map<Slot, SealedEntry>, lands: bool)

  /** A call the client issues. */
  datatype Call =
    | OwnDeviceQuery(userId: string)
    | DeviceKeyUpdate(deviceId: string, publicKey: PublicKey)
    | DeviceInsert(row: DeviceRow)
    | RoomKeyQuery(slot: Slot)
    | RoomKeyEnsure(slot: Slot, entry: SealedEntry)
    | MembersQuery(partyId: string, userId: string)
    | MemberDeviceQuery(userId: string)

  /** Other writers' inserts: every occupied slot keeps its entry, empty ones may be filled. */
  function Fill(keys: map<Slot, SealedEntry>, fill: map<Slot, SealedEntry>): (r: map<Slot, SealedEntry>)
    ensures r.Keys == keys.Keys + fill.Keys
  {
    map s | s in keys.Keys + fill.Keys :: if s in keys then keys[s] else fill[s]
  }

  /** `after` keeps every entry of `before`: no slot has been overwritten or removed. */
  ghost predicate Extends(before: map<Slot, SealedEntry>, after: map<Slot, SealedEntry>) {
    forall s :: s in before ==> s in after && after[s] == before[s]
  }

  lemma ExtendsTransitive(a: map<Slot, SealedEntry>, b: map<Slot, SealedEntry>, c: map<Slot, SealedEntry>)
    requires Extends(a, b) && Extends(b, c)
    ensures Extends(a, c)
  {
  }

  /** `INSERT ... ON CONFLICT DO NOTHING`. */
  function InsertIfAbsent(keys: map<Slot, SealedEntry>, s: Slot, e: SealedEntry): (r: map<Slot, SealedEntry>)
    ensures Extends(keys, r)
    ensures s in r && (s !in keys ==> r[s] == e)
    ensures r.Keys == keys.Keys + {s}
  {
    if s in keys then keys else keys[s := e]
  }

  /** The rows of `user_id = userId and device_label = label`, in table order. */
  function RowsOf(devices: seq<DeviceRow>, userId: string, deviceLabel: string): (r: seq<DeviceRow>)
    ensures forall i :: 0 <= i < |r| ==> r[i] in devices && r[i].userId == userId && r[i].deviceLabel == deviceLabel
    ensures forall d :: d in devices && d.userId == userId && d.deviceLabel == deviceLabel ==> d in r
  {
    if devices == [] then []
    else
      var rest := RowsOf(devices[1..], userId, deviceLabel);
      if devices[0].userId == userId && devices[0].deviceLabel == deviceLabel then [devices[0]] + rest else rest
  }

  /** `.maybeSingle()`: the row when there is exactly one; none, or an error, otherwise. */
  function MaybeSingle(rows: seq<DeviceRow>): Option<DeviceRow> {
    if |rows| == 1 then Some(rows[0]) else None
  }

  /** `.eq("user_id", userId).limit(1).maybeSingle()`: the first device of a user. */
  function FirstDeviceOf(devices: seq<DeviceRow>, userId: string): (r: Option<DeviceRow>)
    ensures r.Some? <==> exists d :: d in devices && d.userId == userId
    ensures r.Some? ==> r.value in devices && r.value.userId == userId
  {
    if devices == [] then None
    else if devices[0].userId == userId then Some(devices[0])
    else FirstDeviceOf(devices[1..], userId)
  }

  /** `.update({ public_key_spki }).eq("id", id)`: every row with that id gets the new key. */
  function WithPublicKey(devices: seq<DeviceRow>, id: string, pk: PublicKey): (r: seq<DeviceRow>)
    ensures |r| == |devices|
    ensures forall i :: 0 <= i < |r| ==>
      r[i] == (if devices[i].id == id then devices[i].(publicKey := Some(pk)) else devices[i])
  {
    seq(|devices|, i requires 0 <= i < |devices| =>
      if devices[i].id == id then devices[i].(publicKey := Some(pk)) else devices[i])
  }

  /** An insert into `user_devices`; a duplicate primary key makes it fail, unseen by the client. */
  function InsertedDevice(devices: seq<DeviceRow>, row: DeviceRow): (r: seq<DeviceRow>)
    ensures (exists d :: d in devices && d.id == row.id) ==> r == devices
    ensures (forall d :: d in devices ==> d.id != row.id) ==> r == devices + [row]
  {
    if exists d :: d in devices && d.id == row.id then devices else devices + [row]
  }

  /** `.eq("party_id", p).neq("user_id", me)` over the member list, in order. */
  function OtherMembers(list: seq<string>, me: string): (r: seq<string>)
    ensures forall u :: u in r <==> u in list && u != me
  {
    if list == [] then []
    else if list[0] == me then OtherMembers(list[1..], me)
    else [list[0]] + OtherMembers(list[1..], me)
  }

  class RemoteStore {
    var devices: seq<DeviceRow>
    var roomKeys: map<Slot, SealedEntry>
    var members: map<string, seq<string>>
    var schedule: seq<Turn>
    ghost var log: seq<Call>

    /** The room-key table after the other writers' next turn. */
    function AfterTurn(): map<Slot, SealedEntry>
      reads this
    {
      if schedule == [] then roomKeys else Fill(roomKeys, schedule[0].fill)
    }

    /** Whether a write issued in the next turn lands. */
    function NextLands(): bool
      reads this
    {
      schedule == [] || schedule[0].lands
    }

    function LaterTurns(): seq<Turn>
      reads this
    {
      if schedule == [] then [] else schedule[1..]
    }

    /** The member list of a party (`party_members`); an unknown party has none. */
    function MembersOf(partyId: string): seq<string>
      reads this
    {
      if partyId in members then members[partyId] else []
    }

    method SelectOwnDevice(userId: string) returns (r: Option<DeviceRow>)
      modifies this
      ensures r == MaybeSingle(RowsOf(devices, userId, DefaultLabel))
      ensures devices == old(devices) && roomKeys == old(roomKeys) && members == old(members)
      ensures schedule == old(schedule) && log == old(log) + [OwnDeviceQuery(userId)]
    {
      log := log + [OwnDeviceQuery(userId)];
      r := MaybeSingle(RowsOf(devices, userId, DefaultLabel));
    }

    method UpdateDeviceKey(deviceId: string, pk: PublicKey)
      modifies this
      ensures devices == WithPublicKey(old(devices), deviceId, pk)
      ensures roomKeys == old(roomKeys) && members == old(members)
      ensures schedule == old(schedule) && log == old(log) + [DeviceKeyUpdate(deviceId, pk)]
    {
      log := log + [DeviceKeyUpdate(deviceId, pk)];
      devices := WithPublicKey(devices, deviceId, pk);
    }

    method InsertDevice(row: DeviceRow)
      modifies this
      ensures devices == InsertedDevice(old(devices), row)
      ensures roomKeys == old(roomKeys) && members == old(members)
      ensures schedule == old(schedule) && log == old(log) + [DeviceInsert(row)]
    {
      log := log + [DeviceInsert(row)];
      devices := InsertedDevice(devices, row);
    }

    /** The next turn of the other writers. */
    method TakeTurn() returns (lands: bool)
      modifies this
      ensures roomKeys == old(AfterTurn()) && schedule == old(LaterTurns()) && lands == old(NextLands())
      ensures Extends(old(roomKeys), roomKeys)
      ensures devices == old(devices) && members == old(members) && log == old(log)
    {
      if schedule == [] {
        lands := true;
      } else {
        roomKeys := Fill(roomKeys, schedule[0].fill);
        lands := schedule[0].lands;
        schedule := schedule[1..];
      }
    }

    /** `select ... from party_room_keys where party_id and user_id`, after the other writers' turn. */
    method SelectRoomKey(s: Slot) returns (r: Option<SealedEntry>)
      modifies this
      ensures roomKeys == old(AfterTurn()) && schedule == old(LaterTurns())
      ensures r == (if s in roomKeys then Some(roomKeys[s]) else None)
      ensures Extends(old(roomKeys), roomKeys)
      ensures devices == old(devices) && members == old(members) && log == old(log) + [RoomKeyQuery(s)]
    {
      var _ := TakeTurn();
      log := log + [RoomKeyQuery(s)];
      r := if s in roomKeys then Some(roomKeys[s]) else None;
    }

    /** The RPC `ensure_party_room_key`: insert if absent, provided the write lands. */
    method EnsureRoomKey(s: Slot, e: SealedEntry)
      modifies this
      ensures roomKeys == (var m := old(AfterTurn()); if old(NextLands()) then InsertIfAbsent(m, s, e) else m)
      ensures schedule == old(LaterTurns())
      ensures Extends(old(roomKeys), roomKeys)
      ensures devices == old(devices) && members == old(members) && log == old(log) + [RoomKeyEnsure(s, e)]
    {
      var lands := TakeTurn();
      log := log + [RoomKeyEnsure(s, e)];
      if lands {
        roomKeys := InsertIfAbsent(roomKeys, s, e);
      }
    }

    method SelectOtherMembers(partyId: string, me: string) returns (r: seq<string>)
      modifies this
      ensures r == OtherMembers(MembersOf(partyId), me)
      ensures devices == old(devices) && roomKeys == old(roomKeys) && members == old(members)
      ensures schedule == old(schedule) && log == old(log) + [MembersQuery(partyId, me)]
    {
      log := log + [MembersQuery(partyId, me)];
      r := OtherMembers(MembersOf(partyId), me);
    }

    method SelectMemberDevice(userId: string) returns (r: Option<DeviceRow>)
      modifies this
      ensures r == FirstDeviceOf(devices, userId)
      ensures devices == old(devices) && roomKeys == old(roomKeys) && members == old(members)
      ensures schedule == old(schedule) && log == old(log) + [MemberDeviceQuery(userId)]
    {
      log := log + [MemberDeviceQuery(userId)];
      r := FirstDeviceOf(devices, userId);
    }
  }
}
