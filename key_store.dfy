/**
 * The IndexedDB database `vibe-e2e` that keeps the device key pair and the room keys
 * on the client.  It has two object stores, `device_keys` and `room_keys`, each a
 * keyed map; a `put` to a present key overwrites it and a `get` of an absent key
 * yields `undefined` (`None`).  Transactions and the asynchronous request API are
 * not modelled.
 */
module KeyStore {
  import opened Wrappers
  import opened Crypto

  const DbName: string := "vibe-e2e"
  const DbVersion: nat := 1
  const StoreDevice: string := "device_keys"
  const StoreRoom: string := "room_keys"

  /** The single key under which the device key pair is kept. */
  const CurrentSlot: string := "current"

  /** A device's identity: its server-side id and its key pair (SPKI and PKCS8 in base64 in the browser). */
  datatype StoredDeviceKey = StoredDeviceKey(deviceId: string, publicKey: PublicKey, privateKey: PrivateKey)

  /** What an object store holds: a device record, or a room key in base64. */
  datatype StoredValue = DeviceRecord(device: StoredDeviceKey) | RoomKeyText(b64: string)

  class LocalKeyStore {
    /** Object store name to its contents. */
    var stores: map<string, map<string, StoredValue>>

    /** Both object stores exist, the device store holds device records and the room store base64 text. */
    ghost predicate Valid()
      reads this
    {
      StoreDevice in stores && StoreRoom in stores &&
      (forall k :: k in stores[StoreDevice] ==> stores[StoreDevice][k].DeviceRecord?) &&
      (forall k :: k in stores[StoreRoom] ==> stores[StoreRoom][k].RoomKeyText?)
    }

    /** The stored device key, as `getStoredDeviceKey` reads it. */
    function DeviceKey(): Option<StoredDeviceKey>
      requires Valid()
      reads this
    {
      if CurrentSlot in stores[StoreDevice] then Some(stores[StoreDevice][CurrentSlot].device) else None
    }

    /** The cached room key of a party, as `getStoredRoomKey` reads it. */
    function RoomKey(partyId: string): Option<string>
      requires Valid()
      reads this
    {
      if partyId in stores[StoreRoom] then Some(stores[StoreRoom][partyId].b64) else None
    }

    /** `openDB` on a database that does not exist yet: the upgrade handler creates both stores. */
    constructor ()
      ensures Valid()
      ensures stores == map[StoreDevice := map[], StoreRoom := map[]]
      ensures DeviceKey() == None && forall p :: RoomKey(p) == None
    {
      stores := map[StoreDevice := map[], StoreRoom := map[]];
    }

    /** `idbGet`: an absent key yields `undefined`. */
    method IdbGet(store: string, key: string) returns (r: Option<StoredValue>)
      requires store in stores
      ensures key in stores[store] ==> r == Some(stores[store][key])
      ensures key !in stores[store] ==> r == None
    {
      if key in stores[store] {
        r := Some(stores[store][key]);
      } else {
        r := None;
      }
    }

    /** `idbPut`: writes `value` under `key` in `store`, overwriting what was there. */
    method IdbPut(store: string, key: string, value: StoredValue)
      requires store in stores
      modifies this
      ensures stores == old(stores)[store := old(stores)[store][key := value]]
    {
      stores := stores[store := stores[store][key := value]];
    }

    method GetStoredDeviceKey() returns (r: Option<StoredDeviceKey>)
      requires Valid()
      ensures r == DeviceKey()
    {
      var v := IdbGet(StoreDevice, CurrentSlot);
      if v.Some? {
        r := Some(v.value.device);
      } else {
        r := None;
      }
    }

    /** `storeDeviceKey`: replaces the device key and touches no room key. */
    method StoreDeviceKey(key: StoredDeviceKey)
      requires Valid()
      modifies this
      ensures Valid()
      ensures DeviceKey() == Some(key)
      ensures forall p :: RoomKey(p) == old(RoomKey(p))
    {
      IdbPut(StoreDevice, CurrentSlot, DeviceRecord(key));
    }

    method GetStoredRoomKey(partyId: string) returns (r: Option<string>)
      requires Valid()
      ensures r == RoomKey(partyId)
    {
      var v := IdbGet(StoreRoom, partyId);
      if v.Some? {
        r := Some(v.value.b64);
      } else {
        r := None;
      }
    }

    /**
     * `storeRoomKey`: replaces the room key of `partyId` only; the device key is
     * untouched even for a party whose id is `"current"`.
     */
    method StoreRoomKey(partyId: string, b64: string)
      requires Valid()
      modifies this
      ensures Valid()
      ensures RoomKey(partyId) == Some(b64)
      ensures forall p :: p != partyId ==> RoomKey(p) == old(RoomKey(p))
      ensures DeviceKey() == old(DeviceKey())
    {
      IdbPut(StoreRoom, partyId, RoomKeyText(b64));
    }
  }

  /** A store followed by a read of the same slot yields what was stored. */
  method StoreThenGet(db: LocalKeyStore, device: StoredDeviceKey, partyId: string, b64: string)
      returns (gotDevice: Option<StoredDeviceKey>, gotRoom: Option<string>)
    requires db.Valid()
    modifies db
    ensures db.Valid()
    ensures gotDevice == Some(device) && gotRoom == Some(b64)
  {
    db.StoreDeviceKey(device);
    db.StoreRoomKey(partyId, b64);
    gotDevice := db.GetStoredDeviceKey();
    gotRoom := db.GetStoredRoomKey(partyId);
  }
}
