/**
 * The end-to-end encrypted party chat on the client (`PartyChat`): the setup that
 * establishes a device identity and the party's room key, the decryption of the
 * message list, the de-duplicating append of live messages, and sending.
 *
 * The server-side tables are a `RemoteStore`, the IndexedDB cache a
 * `LocalKeyStore`.  Randomness (the device key seed, the fresh device id, the
 * generated room key, the IV) comes in as parameters, and AES-GCM as the functions
 * `gcmSeal` and `gcmOpen`.
 */
module PartyChat {
  import opened Wrappers
  import opened Base64
  import opened Crypto
  import opened MessageCrypto
  import opened KeyStore
  import opened Remote
  import JsString
  import JsNumber
  import opened Json

  type GcmSeal = (RoomKey, seq<byte>, string) -> seq<byte>
  type GcmOpen = (RoomKey, seq<byte>, seq<byte>) -> Option<string>

  const SetupFailed: string := "E2E encryption setup failed"
  const NetworkError: string := "Ошибка сети"
  const SendFailed: string := "Ошибка"
  const LoadFailed: string := "Ошибка загрузки"

  /** A `messages` row as the API and the realtime channel deliver it. */
  datatype WireMessage = WireMessage(
    id: string, partyId: string, userId: string,
    ciphertext: Option<string>, nonce: Option<string>, e2eVersion: int,
    senderDeviceId: Option<string>, createdAt: string)

  /** A message as the chat shows it; `plaintext == None` means it could not be decrypted. */
  datatype DecryptedMessage = DecryptedMessage(
    id: string, partyId: string, userId: string,
    plaintext: Option<string>, createdAt: string, decryptFailed: bool)

  /** A nullable string column is truthy: present and not empty. */
  predicate Present(s: Option<string>) {
    s.Some? && s.value != ""
  }

  // ---- Decrypting the message list ----

  /** One wire message of `decryptWireMessages`. */
  function DecryptWire(w: WireMessage, rk: Option<RoomKey>, gcmOpen: GcmOpen): (m: DecryptedMessage)
    ensures m.id == w.id && m.partyId == w.partyId && m.userId == w.userId && m.createdAt == w.createdAt
    ensures m.decryptFailed <==> m.plaintext.None?
    ensures rk.None? || !Present(w.ciphertext) || !Present(w.nonce) ==> m.decryptFailed
    ensures rk.Some? && Present(w.ciphertext) && Present(w.nonce) ==>
      m.plaintext == DecryptMessage(w.ciphertext.value, w.nonce.value, rk.value, gcmOpen)
  {
    if rk.None? || !Present(w.ciphertext) || !Present(w.nonce) then
      DecryptedMessage(w.id, w.partyId, w.userId, None, w.createdAt, true)
    else
      var pt := DecryptMessage(w.ciphertext.value, w.nonce.value, rk.value, gcmOpen);
      DecryptedMessage(w.id, w.partyId, w.userId, pt, w.createdAt, pt.None?)
  }

  /** `decryptWireMessages`: every wire message decrypted, in the same order. */
  function DecryptWireMessages(ws: seq<WireMessage>, rk: Option<RoomKey>, gcmOpen: GcmOpen): (r: seq<DecryptedMessage>)
    ensures |r| == |ws|
    ensures forall i :: 0 <= i < |ws| ==> r[i] == DecryptWire(ws[i], rk, gcmOpen)
  {
    seq(|ws|, i requires 0 <= i < |ws| => DecryptWire(ws[i], rk, gcmOpen))
  }

  function WireIds(ws: seq<WireMessage>): (r: seq<string>)
    ensures |r| == |ws| && forall i :: 0 <= i < |ws| ==> r[i] == ws[i].id
  {
    seq(|ws|, i requires 0 <= i < |ws| => ws[i].id)
  }

  function Ids(ms: seq<DecryptedMessage>): (r: seq<string>)
    ensures |r| == |ms| && forall i :: 0 <= i < |ms| ==> r[i] == ms[i].id
  {
    seq(|ms|, i requires 0 <= i < |ms| => ms[i].id)
  }

  /**
   * The decrypted list has the ids of the wire list in the same order, every entry is
   * flagged exactly when it has no plaintext, and without a room key every entry is.
   */
  lemma DecryptKeepsIds(ws: seq<WireMessage>, rk: Option<RoomKey>, gcmOpen: GcmOpen)
    ensures Ids(DecryptWireMessages(ws, rk, gcmOpen)) == WireIds(ws)
    ensures forall m :: m in DecryptWireMessages(ws, rk, gcmOpen) ==> (m.decryptFailed <==> m.plaintext.None?)
    ensures rk.None? ==> forall m :: m in DecryptWireMessages(ws, rk, gcmOpen) ==> m.decryptFailed
  {
    var r := DecryptWireMessages(ws, rk, gcmOpen);
    forall m | m in r ensures (m.decryptFailed <==> m.plaintext.None?) && (rk.None? ==> m.decryptFailed) {
      var i :| 0 <= i < |r| && r[i] == m;
      assert m == DecryptWire(ws[i], rk, gcmOpen);
    }
  }

  /** A message this client sent decrypts, on every client holding the room key, to what was typed. */
  lemma OwnMessageDecrypts(w: WireMessage, content: string, rk: RoomKey, iv: seq<byte>,
                           gcmSeal: GcmSeal, gcmOpen: GcmOpen)
    requires |iv| == IvBytes
    requires |gcmSeal(rk, iv, content)| > 0
    requires gcmOpen(rk, iv, gcmSeal(rk, iv, content)) == Some(content)
    requires var p := EncryptMessage(content, rk, iv, gcmSeal);
      w.ciphertext == Some(p.ciphertext) && w.nonce == Some(p.nonce)
    ensures DecryptWire(w, Some(rk), gcmOpen).plaintext == Some(content)
    ensures !DecryptWire(w, Some(rk), gcmOpen).decryptFailed
  {
    CiphertextShape(content, rk, iv, gcmSeal);
    NonceShape(content, rk, iv, gcmSeal);
    DecryptEncryptedMessage(content, rk, iv, gcmSeal, gcmOpen);
  }

  /** `data.messages.reverse()`: the API lists newest first, the chat oldest first. */
  function Reverse<T>(s: seq<T>): (r: seq<T>)
    ensures |r| == |s| && forall i :: 0 <= i < |s| ==> r[i] == s[|s| - 1 - i]
  {
    if s == [] then [] else Reverse(s[1..]) + [s[0]]
  }

  // ---- The realtime append ----

  predicate HasId(ms: seq<DecryptedMessage>, id: string) {
    exists i :: 0 <= i < |ms| && ms[i].id == id
  }

  predicate UniqueIds(ms: seq<DecryptedMessage>) {
    forall i, j :: 0 <= i < j < |ms| ==> ms[i].id != ms[j].id
  }

  /** The state updater of a live message: appended unless a message with its id is already shown. */
  function AppendIfNew(prev: seq<DecryptedMessage>, m: DecryptedMessage): (r: seq<DecryptedMessage>)
    ensures HasId(prev, m.id) ==> r == prev
    ensures !HasId(prev, m.id) ==> r == prev + [m]
  {
    if HasId(prev, m.id) then prev else prev + [m]
  }

  /** Live appends keep the ids of the list unique and the message is shown afterwards. */
  lemma AppendKeepsIdsUnique(prev: seq<DecryptedMessage>, m: DecryptedMessage)
    requires UniqueIds(prev)
    ensures UniqueIds(AppendIfNew(prev, m))
    ensures HasId(AppendIfNew(prev, m), m.id)
    ensures |AppendIfNew(prev, m)| <= |prev| + 1 && AppendIfNew(prev, m)[..|prev|] == prev
  {
    var r := AppendIfNew(prev, m);
    if !HasId(prev, m.id) {
      assert r[|prev|].id == m.id;
      forall i, j | 0 <= i < j < |r| ensures r[i].id != r[j].id {
        if j == |prev| {
          assert r[i] == prev[i];
        }
      }
    }
  }

  // ---- Device identity ----

  /** `device` has a row in `user_devices`. */
  ghost predicate Registered(devices: seq<DeviceRow>, device: StoredDeviceKey) {
    exists d :: d in devices && d.id == device.deviceId
  }

  /**
   * Step 1 of the setup: reuse the stored identity; otherwise generate a key pair
   * and either re-key the user's existing `"default"` device row, keeping its id, or
   * register a new row under `newDeviceId`; then store the identity locally.
   */
  method EnsureDeviceIdentity(local: LocalKeyStore, remote: RemoteStore, userId: string, seed: nat, newDeviceId: string)
      returns (device: StoredDeviceKey)
    requires local.Valid()
    modifies local, remote
    ensures local.Valid()
    ensures remote.roomKeys == old(remote.roomKeys) && remote.members == old(remote.members)
    ensures remote.schedule == old(remote.schedule)
    ensures old(local.DeviceKey()).Some? ==>
      device == old(local.DeviceKey()).value && local.stores == old(local.stores) &&
      remote.devices == old(remote.devices) && remote.log == old(remote.log)
    ensures old(local.DeviceKey()).None? ==>
      var kp := GenerateDeviceKeyPair(seed);
      var existing := MaybeSingle(RowsOf(old(remote.devices), userId, DefaultLabel));
      device.publicKey == kp.publicKey && device.privateKey == kp.privateKey &&
      local.DeviceKey() == Some(device) && (forall p :: local.RoomKey(p) == old(local.RoomKey(p))) &&
      Registered(remote.devices, device) &&
      (existing.Some? ==>
        device.deviceId == existing.value.id &&
        remote.devices == WithPublicKey(old(remote.devices), device.deviceId, kp.publicKey) &&
        remote.log == old(remote.log) + [OwnDeviceQuery(userId), DeviceKeyUpdate(device.deviceId, kp.publicKey)]) &&
      (existing.None? ==>
        var row := DeviceRow(newDeviceId, userId, DefaultLabel, Some(kp.publicKey));
        device.deviceId == newDeviceId &&
        remote.devices == InsertedDevice(old(remote.devices), row) &&
        remote.log == old(remote.log) + [OwnDeviceQuery(userId), DeviceInsert(row)])
  {
    var stored := local.GetStoredDeviceKey();
    if stored.Some? {
      device := stored.value;
      return;
    }
    var existing := remote.SelectOwnDevice(userId);
    var kp := GenerateDeviceKeyPair(seed);
    ghost var before := remote.devices;
    if existing.Some? {
      assert existing.value in before;
      ghost var i :| 0 <= i < |before| && before[i] == existing.value;
      remote.UpdateDeviceKey(existing.value.id, kp.publicKey);
      device := StoredDeviceKey(existing.value.id, kp.publicKey, kp.privateKey);
      assert remote.devices[i].id == device.deviceId;
      assert remote.devices[i] in remote.devices;
    } else {
      var row := DeviceRow(newDeviceId, userId, DefaultLabel, Some(kp.publicKey));
      remote.InsertDevice(row);
      device := StoredDeviceKey(newDeviceId, kp.publicKey, kp.privateKey);
      if !exists d :: d in before && d.id == row.id {
        assert remote.devices[|before|] == row;
        assert row in remote.devices;
      }
    }
    local.StoreDeviceKey(device);
  }

  // ---- Room key ----

  /** The `party_room_keys` row sealed by `device` for a recipient with public key `recipient`. */
  function EntryFor(rk: RoomKey, device: StoredDeviceKey, recipient: PublicKey): (e: SealedEntry)
    ensures e.senderDeviceId == device.deviceId && e.senderPublicKey == Some(device.publicKey)
    ensures e.payload.Some? && e.payload.value.roomKey == rk
  {
    SealedEntry(Some(SealRoomKey(rk, device.privateKey, recipient)), device.deviceId, Some(device.publicKey))
  }

  /** The room key `device` obtains from an entry: both columns present and the unseal succeeding. */
  function SlotKey(e: SealedEntry, device: StoredDeviceKey): (r: Option<RoomKey>)
    ensures r.Some? ==> e.payload.Some? && r.value == e.payload.value.roomKey
  {
    if e.payload.Some? && e.senderPublicKey.Some? then
      UnsealRoomKey(e.payload.value, device.privateKey, e.senderPublicKey.value)
    else None
  }

  /** The entry holds `rk` for `device`: it is `device`'s own seal of `rk`, or it unseals to `rk`. */
  predicate CarriesKey(e: SealedEntry, rk: RoomKey, device: StoredDeviceKey) {
    e.payload == Some(SealRoomKey(rk, device.privateKey, device.publicKey)) || SlotKey(e, device) == Some(rk)
  }

  /** An entry carries at most one key, so the key that setup settles on is determined by my slot. */
  lemma CarriedKeyUnique(e: SealedEntry, a: RoomKey, b: RoomKey, device: StoredDeviceKey)
    requires CarriesKey(e, a, device) && CarriesKey(e, b, device)
    ensures a == b
  {
  }

  /** A device key pair whose halves belong together, as `generateDeviceKeyPair` makes them. */
  predicate MatchedPair(device: StoredDeviceKey) {
    device.publicKey.seed == device.privateKey.seed
  }

  /**
   * Convergence: for a real key pair, whatever entry carries `rk` also unseals to
   * `rk` with my private key and the sender key recorded in it, when the sender
   * column is mine or the entry was not my own seal.
   */
  lemma CarriedKeyUnseals(e: SealedEntry, rk: RoomKey, device: StoredDeviceKey)
    requires MatchedPair(device) && CarriesKey(e, rk, device)
    requires e.senderPublicKey == Some(device.publicKey) || SlotKey(e, device) == Some(rk)
    ensures SlotKey(e, device) == Some(rk)
  {
    if SlotKey(e, device) != Some(rk) {
      UnsealSealedForMe(rk, device.privateKey.seed, device.publicKey.seed);
    }
  }

  /** `device` keeps nothing back: no device-table writes in a sequence of calls. */
  predicate NoDeviceWrites(calls: seq<Call>) {
    forall c :: c in calls ==> !c.DeviceKeyUpdate? && !c.DeviceInsert?
  }

  /** The public key of a member's first registered device, when it has one. */
  function PublishedKey(devices: seq<DeviceRow>, userId: string): (r: Option<PublicKey>)
    ensures r.Some? ==> exists d :: d in devices && d.userId == userId && d.publicKey == r
  {
    var row := FirstDeviceOf(devices, userId);
    if row.Some? && row.value.publicKey.Some? then row.value.publicKey else None
  }

  /** The calls the fan-out issues for one member. */
  function MemberCalls(devices: seq<DeviceRow>, partyId: string, userId: string, rk: RoomKey,
                       device: StoredDeviceKey): seq<Call>
  {
    var pk := PublishedKey(devices, userId);
    [MemberDeviceQuery(userId)] +
    (if pk.Some? then [RoomKeyEnsure(Slot(partyId, userId), EntryFor(rk, device, pk.value))] else [])
  }

  /** The calls the fan-out issues for `targets`, in order. */
  function FanOutCalls(devices: seq<DeviceRow>, partyId: string, targets: seq<string>, rk: RoomKey,
                       device: StoredDeviceKey): seq<Call>
    decreases |targets|
  {
    if targets == [] then []
    else FanOutCalls(devices, partyId, targets[..|targets| - 1], rk, device) +
         MemberCalls(devices, partyId, targets[|targets| - 1], rk, device)
  }

  /**
   * Every write of the fan-out is an insert-if-absent into the slot of a target with
   * a published key, carrying the room key sealed for that key.
   */
  lemma {:induction false} FanOutTargetsOnly(devices: seq<DeviceRow>, partyId: string, targets: seq<string>,
                                              rk: RoomKey, device: StoredDeviceKey)
    ensures NoDeviceWrites(FanOutCalls(devices, partyId, targets, rk, device))
    ensures forall c :: c in FanOutCalls(devices, partyId, targets, rk, device) && c.RoomKeyEnsure? ==>
      c.slot.partyId == partyId && c.slot.userId in targets &&
      PublishedKey(devices, c.slot.userId).Some? &&
      c.entry == EntryFor(rk, device, PublishedKey(devices, c.slot.userId).value)
    decreases |targets|
  {
    if targets != [] {
      var init := targets[..|targets| - 1];
      FanOutTargetsOnly(devices, partyId, init, rk, device);
      assert forall u :: u in init ==> u in targets;
    }
  }

  /** Every target with a published key is sent the room key. */
  lemma {:induction false} FanOutReachesAll(devices: seq<DeviceRow>, partyId: string, targets: seq<string>,
                                             rk: RoomKey, device: StoredDeviceKey)
    ensures forall u :: u in targets && PublishedKey(devices, u).Some? ==>
      RoomKeyEnsure(Slot(partyId, u), EntryFor(rk, device, PublishedKey(devices, u).value))
        in FanOutCalls(devices, partyId, targets, rk, device)
    decreases |targets|
  {
    if targets != [] {
      var init := targets[..|targets| - 1];
      var last := targets[|targets| - 1];
      FanOutReachesAll(devices, partyId, init, rk, device);
      forall u | u in targets && PublishedKey(devices, u).Some?
        ensures RoomKeyEnsure(Slot(partyId, u), EntryFor(rk, device, PublishedKey(devices, u).value))
          in FanOutCalls(devices, partyId, targets, rk, device)
      {
        if u != last {
          var k :| 0 <= k < |targets| && targets[k] == u;
          assert init[k] == u;
        }
      }
    }
  }

  /** Fanning out to the other members never writes into my own slot. */
  lemma FanOutSkipsMe(devices: seq<DeviceRow>, partyId: string, list: seq<string>, me: string,
                      rk: RoomKey, device: StoredDeviceKey)
    ensures forall c :: c in FanOutCalls(devices, partyId, OtherMembers(list, me), rk, device) && c.RoomKeyEnsure? ==>
      c.slot != Slot(partyId, me) && c.slot.userId in list
  {
    FanOutTargetsOnly(devices, partyId, OtherMembers(list, me), rk, device);
  }

  /** The fan-out loop over the other members. */
  method FanOut(remote: RemoteStore, partyId: string, targets: seq<string>, rk: RoomKey, device: StoredDeviceKey)
    modifies remote
    ensures remote.log == old(remote.log) + FanOutCalls(old(remote.devices), partyId, targets, rk, device)
    ensures remote.devices == old(remote.devices) && remote.members == old(remote.members)
    ensures Extends(old(remote.roomKeys), remote.roomKeys)
  {
    var i := 0;
    while i < |targets|
      invariant 0 <= i <= |targets|
      invariant remote.log == old(remote.log) + FanOutCalls(old(remote.devices), partyId, targets[..i], rk, device)
      invariant remote.devices == old(remote.devices) && remote.members == old(remote.members)
      invariant Extends(old(remote.roomKeys), remote.roomKeys)
    {
      var m := targets[i];
      ghost var before := remote.roomKeys;
      var row := remote.SelectMemberDevice(m);
      if row.Some? && row.value.publicKey.Some? {
        remote.EnsureRoomKey(Slot(partyId, m), EntryFor(rk, device, row.value.publicKey.value));
      }
      ExtendsTransitive(old(remote.roomKeys), before, remote.roomKeys);
      assert targets[..i + 1][..i] == targets[..i];
      i := i + 1;
    }
    assert targets[..|targets|] == targets;
  }

  lemma SeqAssoc<T>(a: seq<T>, b: seq<T>, c: seq<T>, d: seq<T>)
    ensures ((a + b) + c) + d == a + (b + c + d)
  {
  }

  /** The calls of the bootstrap path, in order. */
  function BootstrapCalls(devices: seq<DeviceRow>, members: seq<string>, partyId: string, userId: string,
                          device: StoredDeviceKey, generated: RoomKey): seq<Call>
  {
    var slot := Slot(partyId, userId);
    [RoomKeyEnsure(slot, EntryFor(generated, device, device.publicKey)), MembersQuery(partyId, userId)] +
    FanOutCalls(devices, partyId, OtherMembers(members, userId), generated, device) +
    [RoomKeyQuery(slot)]
  }

  /** The bootstrap path writes nothing but room-key inserts, and into my slot only my own seal. */
  lemma BootstrapWritesOnlyEnsures(devices: seq<DeviceRow>, members: seq<string>, partyId: string, userId: string,
                                   device: StoredDeviceKey, generated: RoomKey)
    ensures NoDeviceWrites(BootstrapCalls(devices, members, partyId, userId, device, generated))
    ensures forall c :: c in BootstrapCalls(devices, members, partyId, userId, device, generated) ==>
      (c.RoomKeyEnsure? && c.slot == Slot(partyId, userId) ==> c.entry == EntryFor(generated, device, device.publicKey))
  {
    FanOutTargetsOnly(devices, partyId, OtherMembers(members, userId), generated, device);
    FanOutSkipsMe(devices, partyId, members, userId, generated, device);
  }

  /**
   * The bootstrap path: adopt and cache `generated`, self-seal it into my slot and
   * fan it out; then re-read my slot and, when another writer got there first,
   * adopt the key they sealed for me.  `ok == false` is the exception from an entry
   * that cannot be unsealed; `adopted` is what `roomKeyRef` last received.
   */
  method Bootstrap(local: LocalKeyStore, remote: RemoteStore, partyId: string, userId: string,
                   device: StoredDeviceKey, generated: RoomKey)
      returns (ok: bool, adopted: RoomKey)
    requires local.Valid()
    modifies local, remote
    ensures local.Valid() && local.DeviceKey() == old(local.DeviceKey())
    ensures forall p :: p != partyId ==> local.RoomKey(p) == old(local.RoomKey(p))
    ensures local.RoomKey(partyId) == Some(ExportRoomKey(adopted))
    ensures remote.devices == old(remote.devices) && remote.members == old(remote.members)
    ensures Extends(old(remote.roomKeys), remote.roomKeys)
    ensures remote.log == old(remote.log) +
      BootstrapCalls(old(remote.devices), old(remote.MembersOf(partyId)), partyId, userId, device, generated)
    ensures var slot := Slot(partyId, userId);
      var mine := Some(SealRoomKey(generated, device.privateKey, device.publicKey));
      if slot in remote.roomKeys && remote.roomKeys[slot].payload != mine then
        ok == SlotKey(remote.roomKeys[slot], device).Some? &&
        adopted == (if ok then SlotKey(remote.roomKeys[slot], device).value else generated)
      else ok && adopted == generated
  {
    var slot := Slot(partyId, userId);
    adopted := generated;
    local.StoreRoomKey(partyId, ExportRoomKey(generated));
    var selfSealed := SealRoomKey(generated, device.privateKey, device.publicKey);
    ghost var r0, l0 := remote.roomKeys, remote.log;
    ghost var head := [RoomKeyEnsure(slot, EntryFor(generated, device, device.publicKey)), MembersQuery(partyId, userId)];
    remote.EnsureRoomKey(slot, EntryFor(generated, device, device.publicKey));
    var others := remote.SelectOtherMembers(partyId, userId);
    assert remote.log == l0 + head;
    ghost var r1 := remote.roomKeys;
    FanOut(remote, partyId, others, generated, device);
    ghost var fan := FanOutCalls(remote.devices, partyId, others, generated, device);
    assert remote.log == (l0 + head) + fan;
    ghost var r2 := remote.roomKeys;
    var finalKey := remote.SelectRoomKey(slot);
    ExtendsTransitive(r0, r1, r2);
    ExtendsTransitive(r0, r2, remote.roomKeys);
    SeqAssoc(l0, head, fan, [RoomKeyQuery(slot)]);
    if finalKey.Some? && finalKey.value.payload != Some(selfSealed) {
      var theirs := SlotKey(finalKey.value, device);
      if theirs.None? {
        ok := false;
        return;
      }
      adopted := theirs.value;
      local.StoreRoomKey(partyId, ExportRoomKey(theirs.value));
    }
    ok := true;
  }

  /** The local cache holds a key (`if (storedRoomKeyB64)`). */
  predicate CacheHit(cached: Option<string>) {
    cached.Some? && cached.value != ""
  }

  /**
   * Step 2 of the setup: the cached room key, else the entry sealed for me, else the
   * bootstrap path.  `ok == false` is an exception; `adopted` is what `roomKeyRef`
   * last received, `None` when it was not adopted.
   */
  method ObtainRoomKey(local: LocalKeyStore, remote: RemoteStore, partyId: string, userId: string,
                       device: StoredDeviceKey, generated: RoomKey)
      returns (ok: bool, adopted: Option<RoomKey>)
    requires local.Valid()
    modifies local, remote
    ensures local.Valid() && local.DeviceKey() == old(local.DeviceKey())
    ensures forall p :: p != partyId ==> local.RoomKey(p) == old(local.RoomKey(p))
    ensures remote.devices == old(remote.devices) && remote.members == old(remote.members)
    ensures Extends(old(remote.roomKeys), remote.roomKeys)
    ensures ok ==> adopted.Some?
    // A cache hit is imported and touches neither store.
    ensures CacheHit(old(local.RoomKey(partyId))) ==>
      adopted == ImportRoomKey(old(local.RoomKey(partyId)).value) && ok == adopted.Some? &&
      local.stores == old(local.stores) && remote.roomKeys == old(remote.roomKeys) &&
      remote.schedule == old(remote.schedule) && remote.log == old(remote.log)
    // Otherwise the cache and the key agree with what my slot holds.
    ensures !CacheHit(old(local.RoomKey(partyId))) && ok ==>
      var slot := Slot(partyId, userId);
      local.RoomKey(partyId) == Some(ExportRoomKey(adopted.value)) &&
      (slot in remote.roomKeys ==> CarriesKey(remote.roomKeys[slot], adopted.value, device)) &&
      (slot !in remote.roomKeys ==> adopted.value == generated)
    ensures !CacheHit(old(local.RoomKey(partyId))) && !ok ==>
      var slot := Slot(partyId, userId);
      slot in remote.roomKeys && SlotKey(remote.roomKeys[slot], device).None?
  {
    var slot := Slot(partyId, userId);
    var stored := local.GetStoredRoomKey(partyId);
    if stored.Some? && stored.value != "" {
      adopted := ImportRoomKey(stored.value);
      ok := adopted.Some?;
      return;
    }
    ghost var r0 := remote.roomKeys;
    var sealed := remote.SelectRoomKey(slot);
    if sealed.Some? && sealed.value.payload.Some? && sealed.value.senderPublicKey.Some? {
      var rk := SlotKey(sealed.value, device);
      if rk.None? {
        ok, adopted := false, None;
        return;
      }
      adopted := rk;
      local.StoreRoomKey(partyId, ExportRoomKey(rk.value));
      ok := true;
    } else {
      ghost var r1 := remote.roomKeys;
      var bootOk, key := Bootstrap(local, remote, partyId, userId, device, generated);
      ExtendsTransitive(r0, r1, remote.roomKeys);
      ok, adopted := bootOk, Some(key);
    }
  }

  /**
   * Where setup leaves the room key `rk` of `device`: imported from a cache hit
   * (`cached` is the cache before setup), or else cached locally and agreeing with my
   * slot: the slot carries `rk`, or it is empty and `rk` is the generated key.
   */
  ghost predicate Converged(local: LocalKeyStore, remote: RemoteStore, partyId: string, userId: string,
                            cached: Option<string>, device: StoredDeviceKey, rk: RoomKey, generated: RoomKey)
    requires local.Valid()
    reads local, remote
  {
    var slot := Slot(partyId, userId);
    if CacheHit(cached) then
      ImportRoomKey(cached.value) == Some(rk) && local.RoomKey(partyId) == cached
    else
      local.RoomKey(partyId) == Some(ExportRoomKey(rk)) &&
      (slot in remote.roomKeys ==> CarriesKey(remote.roomKeys[slot], rk, device)) &&
      (slot !in remote.roomKeys ==> rk == generated)
  }

  /** Both steps of the setup effect, as the effect runs them; `ok == false` is an exception. */
  method SetupKeys(local: LocalKeyStore, remote: RemoteStore, partyId: string, userId: string,
                   seed: nat, newDeviceId: string, generated: RoomKey)
      returns (ok: bool, device: StoredDeviceKey, adopted: Option<RoomKey>)
    requires local.Valid()
    modifies local, remote
    ensures local.Valid() && local.DeviceKey() == Some(device)
    ensures Extends(old(remote.roomKeys), remote.roomKeys)
    ensures ok ==> adopted.Some? && Converged(local, remote, partyId, userId, old(local.RoomKey(partyId)),
                                              device, adopted.value, generated)
  {
    ghost var cached := local.RoomKey(partyId);
    device := EnsureDeviceIdentity(local, remote, userId, seed, newDeviceId);
    assert local.RoomKey(partyId) == cached;
    ok, adopted := ObtainRoomKey(local, remote, partyId, userId, device, generated);
  }

  // ---- The chat session ----

  /** The body of the message POST. */
  datatype OutgoingMessage = OutgoingMessage(partyId: string, ciphertext: string, nonce: string,
                                             e2eVersion: int, senderDeviceId: string)

  /** The POST body `handleSend` builds for `content`: encrypted, with version 1 and my device id. */
  function Outgoing(partyId: string, content: string, rk: RoomKey, device: StoredDeviceKey,
                    iv: seq<byte>, gcmSeal: GcmSeal): OutgoingMessage
    requires |iv| == IvBytes
  {
    var p := EncryptMessage(content, rk, iv, gcmSeal);
    OutgoingMessage(partyId, p.ciphertext, p.nonce, 1, device.deviceId)
  }

  /** `JSON.stringify` of the POST body, as the server parses it. */
  function OutgoingJson(o: OutgoingMessage): Json {
    ObjectOf([("party_id", Some(JString(o.partyId))),
              ("ciphertext", Some(JString(o.ciphertext))),
              ("nonce", Some(JString(o.nonce))),
              ("e2e_version", Some(JNumber(JsNumber.Decimal(1, 0)))),
              ("sender_device_id", Some(JString(o.senderDeviceId)))])
  }

  /** The response to the initial message load, as far as the chat reads it. */
  datatype LoadReply =
    | LoadThrew                               // network failure
    | LoadRefused(body: Option<Json>)         // `!res.ok`; `None` when the body is not JSON
    | LoadListed(wires: Option<seq<WireMessage>>)  // `None` when `data.messages` is not a list

  /**
   * The error state after a send completes: an error reply whose body is not JSON or
   * is `null` throws when its `error` is read, which shows the network error.
   */
  function SendError(reply: Option<HttpReply>, prior: Option<string>): (r: Option<string>)
    ensures reply.None? ==> r == Some(NetworkError)
    ensures reply.Some? && IsOkStatus(reply.value.status) ==> r == prior
    ensures reply.Some? && reply.value.status == 429 ==> r == prior
    ensures reply.Some? && reply.value.status != 429 && !IsOkStatus(reply.value.status) ==>
      r == if ReadThrows(reply.value.body) then Some(NetworkError) else ErrorText(reply.value.body, SendFailed)
  {
    match reply
    case None => Some(NetworkError)
    case Some(HttpReply(status, body)) =>
      if status == 429 || IsOkStatus(status) then prior
      else
        var text := ErrorText(body, SendFailed);
        if text.Some? then text else Some(NetworkError)
  }

  /** A send went through: the server accepted it. */
  predicate Sent(reply: Option<HttpReply>) {
    reply.Some? && IsOkStatus(reply.value.status)
  }

  class ChatSession {
    const partyId: string
    const currentUserId: string
    const local: LocalKeyStore
    const remote: RemoteStore

    var messages: seq<DecryptedMessage>
    var input: string
    var loading: bool
    var sending: bool
    var error: Option<string>
    var rateLimited: bool
    var e2eReady: bool
    var deviceKeyRef: Option<StoredDeviceKey>
    var roomKeyRef: Option<RoomKey>

    /** The cache is well formed, and the chat is ready only once both keys are in place. */
    ghost predicate Valid()
      reads this, local
    {
      local.Valid() && (e2eReady ==> deviceKeyRef.Some? && roomKeyRef.Some?)
    }

    constructor (partyId: string, currentUserId: string, local: LocalKeyStore, remote: RemoteStore)
      requires local.Valid()
      ensures Valid()
      ensures this.partyId == partyId && this.currentUserId == currentUserId
      ensures this.local == local && this.remote == remote
      ensures messages == [] && input == "" && loading && !sending && error.None? && !rateLimited
      ensures !e2eReady && deviceKeyRef.None? && roomKeyRef.None?
    {
      this.partyId := partyId;
      this.currentUserId := currentUserId;
      this.local := local;
      this.remote := remote;
      messages := [];
      input := "";
      loading := true;
      sending := false;
      error := None;
      rateLimited := false;
      e2eReady := false;
      deviceKeyRef := None;
      roomKeyRef := None;
    }

    /**
     * The setup effect.  On success the chat becomes ready with both keys in place
     * and the room key settled as `Converged` says; on an exception the error is
     * shown, and the chat stays as ready as it was.
     */
    method Setup(seed: nat, newDeviceId: string, generated: RoomKey) returns (ok: bool)
      requires Valid()
      modifies this, local, remote
      ensures Valid()
      ensures e2eReady == (old(e2eReady) || ok)
      ensures error == (if ok then old(error) else Some(SetupFailed))
      ensures messages == old(messages) && input == old(input) && loading == old(loading)
      ensures sending == old(sending) && rateLimited == old(rateLimited)
      ensures deviceKeyRef.Some? && local.DeviceKey() == deviceKeyRef
      ensures Extends(old(remote.roomKeys), remote.roomKeys)
      ensures ok ==> (roomKeyRef.Some? &&
        Converged(local, remote, partyId, currentUserId, old(local.RoomKey(partyId)),
                  deviceKeyRef.value, roomKeyRef.value, generated))
    {
      var device, adopted;
      ok, device, adopted := SetupKeys(local, remote, partyId, currentUserId, seed, newDeviceId, generated);
      deviceKeyRef := Some(device);
      if adopted.Some? {
        roomKeyRef := adopted;
      }
      if ok {
        e2eReady := true;
      } else {
        error := Some(SetupFailed);
      }
    }

    /** The initial load of the message list once the chat is ready. */
    method LoadMessages(reply: LoadReply, gcmOpen: GcmOpen)
      requires Valid()
      modifies this
      ensures Valid()
      ensures !old(e2eReady) ==> messages == old(messages) && error == old(error) && loading == old(loading)
      ensures old(e2eReady) ==> !loading
      ensures old(e2eReady) && reply.LoadListed? && reply.wires.Some? ==>
        messages == DecryptWireMessages(Reverse(reply.wires.value), roomKeyRef, gcmOpen) && error == old(error)
      ensures old(e2eReady) && reply.LoadRefused? && !ReadThrows(reply.body) ==>
        messages == old(messages) && error == ErrorText(reply.body, LoadFailed)
      ensures old(e2eReady) && (reply.LoadThrew? || (reply.LoadRefused? && ReadThrows(reply.body)) ||
                                (reply.LoadListed? && reply.wires.None?)) ==>
        messages == old(messages) && error == Some(NetworkError)
      ensures input == old(input) && sending == old(sending) && rateLimited == old(rateLimited)
      ensures e2eReady == old(e2eReady) && deviceKeyRef == old(deviceKeyRef) && roomKeyRef == old(roomKeyRef)
    {
      if !e2eReady {
        return;
      }
      loading := true;
      match reply {
        case LoadThrew =>
          error := Some(NetworkError);
        case LoadRefused(body) =>
          var text := ErrorText(body, LoadFailed);
          error := if text.Some? then text else Some(NetworkError);
        case LoadListed(wires) =>
          if wires.None? {
            error := Some(NetworkError);
          } else {
            messages := DecryptWireMessages(Reverse(wires.value), roomKeyRef, gcmOpen);
          }
      }
      loading := false;
    }

    /** A message arriving on the realtime channel, which exists only while the chat is ready. */
    method ReceiveLive(wire: WireMessage, gcmOpen: GcmOpen)
      requires Valid()
      modifies this
      ensures Valid()
      ensures messages == (if e2eReady then AppendIfNew(old(messages), DecryptWire(wire, roomKeyRef, gcmOpen))
                           else old(messages))
      ensures input == old(input) && loading == old(loading) && sending == old(sending)
      ensures error == old(error) && rateLimited == old(rateLimited) && e2eReady == old(e2eReady)
      ensures deviceKeyRef == old(deviceKeyRef) && roomKeyRef == old(roomKeyRef)
    {
      if e2eReady {
        messages := AppendIfNew(messages, DecryptWire(wire, roomKeyRef, gcmOpen));
      }
    }

    /** The guard of `handleSend`. */
    predicate CanSend()
      reads this
    {
      JsString.Trim(input) != "" && !sending && !rateLimited && e2eReady &&
      roomKeyRef.Some? && deviceKeyRef.Some?
    }

    /**
     * The first half of `handleSend`: unless the guard stops it, encrypt the trimmed
     * input and return the POST body, with `sending` set and the error cleared.
     */
    method StartSend(iv: seq<byte>, gcmSeal: GcmSeal) returns (body: Option<OutgoingMessage>)
      requires Valid() && |iv| == IvBytes
      modifies this
      ensures Valid()
      ensures body.Some? <==> old(CanSend())
      ensures body.None? ==> sending == old(sending) && error == old(error)
      ensures body.Some? ==> (roomKeyRef.Some? && deviceKeyRef.Some? && sending && error.None? &&
        body.value == Outgoing(partyId, JsString.Trim(input), roomKeyRef.value, deviceKeyRef.value, iv, gcmSeal))
      ensures messages == old(messages) && input == old(input) && loading == old(loading)
      ensures rateLimited == old(rateLimited) && e2eReady == old(e2eReady)
      ensures deviceKeyRef == old(deviceKeyRef) && roomKeyRef == old(roomKeyRef)
    {
      var content := JsString.Trim(input);
      if content == "" || sending || rateLimited || !e2eReady {
        return None;
      }
      if roomKeyRef.None? || deviceKeyRef.None? {
        return None;
      }
      sending := true;
      error := None;
      body := Some(Outgoing(partyId, content, roomKeyRef.value, deviceKeyRef.value, iv, gcmSeal));
    }

    /**
     * The second half of `handleSend`, given the POST's reply (`None`: the request
     * threw).  The input is cleared only when the server accepted the message.
     */
    method FinishSend(reply: Option<HttpReply>)
      requires Valid()
      modifies this
      ensures Valid()
      ensures !sending
      ensures input == (if Sent(reply) then "" else old(input))
      ensures rateLimited == (old(rateLimited) || (reply.Some? && reply.value.status == 429))
      ensures error == SendError(reply, old(error))
      ensures messages == old(messages) && loading == old(loading) && e2eReady == old(e2eReady)
      ensures deviceKeyRef == old(deviceKeyRef) && roomKeyRef == old(roomKeyRef)
    {
      if reply.None? {
        error := Some(NetworkError);
      } else if reply.value.status == 429 {
        rateLimited := true;
      } else if !IsOkStatus(reply.value.status) {
        error := SendError(reply, error);
      } else {
        input := "";
      }
      sending := false;
    }

    /** The ten-second timer after a 429. */
    method RateLimitExpired()
      requires Valid()
      modifies this
      ensures Valid()
      ensures !rateLimited
      ensures messages == old(messages) && input == old(input) && loading == old(loading)
      ensures sending == old(sending) && error == old(error) && e2eReady == old(e2eReady)
      ensures deviceKeyRef == old(deviceKeyRef) && roomKeyRef == old(roomKeyRef)
    {
      rateLimited := false;
    }

    /** Typing into the input field. */
    method SetInput(text: string)
      requires Valid()
      modifies this
      ensures Valid()
      ensures input == text
      ensures messages == old(messages) && loading == old(loading) && sending == old(sending)
      ensures error == old(error) && rateLimited == old(rateLimited) && e2eReady == old(e2eReady)
      ensures deviceKeyRef == old(deviceKeyRef) && roomKeyRef == old(roomKeyRef)
    {
      input := text;
    }
  }
}
