/**
 * A symbolic model of the key material the chat uses.  Device key pairs are ECDH
 * P-256 pairs; a room key is a raw AES-GCM key; sealing wraps a room key under the
 * secret that ECDH derives from one party's private key and the other party's
 * public key.  Key pairs are identified by the seed they were generated from, and
 * the derived secret is the unordered pair of the two seeds, which is what makes
 * ECDH symmetric.  The primitives themselves are not modelled (see README).
 */
module Crypto {
  import opened Wrappers
  import opened Base64
  import Keys

  datatype PublicKey = PublicKey(seed: nat)
  datatype PrivateKey = PrivateKey(seed: nat)
  datatype KeyPair = KeyPair(publicKey: PublicKey, privateKey: PrivateKey)

  /** `generateDeviceKeyPair`: the randomness is the seed. */
  function GenerateDeviceKeyPair(seed: nat): KeyPair {
    KeyPair(PublicKey(seed), PrivateKey(seed))
  }

  /** The ECDH secret derived from my private key and a peer's public key. */
  function SharedSecret(mine: PrivateKey, peer: PublicKey): set<nat> {
    {mine.seed, peer.seed}
  }

  /** ECDH agreement: both ends of a pair of key pairs derive the same secret. */
  lemma SharedSecretAgrees(a: nat, b: nat)
    ensures SharedSecret(PrivateKey(a), PublicKey(b)) == SharedSecret(PrivateKey(b), PublicKey(a))
  {
  }

  /** A raw AES-GCM room key. */
  datatype RoomKey = RoomKey(raw: seq<byte>)

  /** The raw key lengths AES accepts (128, 192 or 256 bits). */
  predicate ValidAesKeyLength(n: nat) {
    n == 16 || n == 24 || n == 32
  }

  /** A room key wrapped under a derived secret (the `encrypted_room_key` column). */
  datatype Sealed = Sealed(roomKey: RoomKey, secret: set<nat>)

  /** `sealRoomKey(rk, myPrivate, peerPublic)`. */
  function SealRoomKey(rk: RoomKey, mine: PrivateKey, peer: PublicKey): Sealed {
    Sealed(rk, SharedSecret(mine, peer))
  }

  /**
   * `unsealRoomKey(sealed, myPrivate, senderPublic)`: the unwrap succeeds only under
   * the secret the payload was sealed with; `None` is the exception the integrity
   * check throws.
   */
  function UnsealRoomKey(s: Sealed, mine: PrivateKey, sender: PublicKey): Option<RoomKey> {
    if s.secret == SharedSecret(mine, sender) then Some(s.roomKey) else None
  }

  /** What is sealed by A for B is unsealed by B with A's public key. */
  lemma UnsealSealedForMe(rk: RoomKey, sender: nat, recipient: nat)
    ensures UnsealRoomKey(SealRoomKey(rk, PrivateKey(sender), PublicKey(recipient)),
                          PrivateKey(recipient), PublicKey(sender)) == Some(rk)
  {
    SharedSecretAgrees(sender, recipient);
  }

  /** No one else can unseal: a third key pair's secret differs. */
  lemma UnsealByOtherFails(rk: RoomKey, sender: nat, recipient: nat, other: nat)
    requires other != sender && other != recipient
    ensures UnsealRoomKey(SealRoomKey(rk, PrivateKey(sender), PublicKey(recipient)),
                          PrivateKey(other), PublicKey(sender)) == None
  {
    assert other in SharedSecret(PrivateKey(other), PublicKey(sender));
  }

  /** `exportRoomKey`: the raw key bytes in base64. */
  function ExportRoomKey(rk: RoomKey): string {
    Encode(rk.raw)
  }

  /** `importRoomKey`: malformed base64 or a raw length AES rejects throws (`None`). */
  function ImportRoomKey(b64: string): (r: Option<RoomKey>)
    ensures r.Some? ==> ValidAesKeyLength(|r.value.raw|)
  {
    var binary := Atob(b64);
    if binary.None? then None
    else
      var raw := Latin1Bytes(binary.value);
      if ValidAesKeyLength(|raw|) then Some(RoomKey(raw)) else None
  }

  /** A valid room key survives the export/import round trip through the local cache. */
  lemma ImportExportRoomKey(rk: RoomKey)
    requires ValidAesKeyLength(|rk.raw|)
    ensures ImportRoomKey(ExportRoomKey(rk)) == Some(rk)
  {
    Keys.DecodeOfEncodeIsIdentity(rk.raw);
  }

  /** An exported room key is never the empty string, so a cached key is always truthy. */
  lemma ExportedRoomKeyNonEmpty(rk: RoomKey)
    requires ValidAesKeyLength(|rk.raw|)
    ensures ExportRoomKey(rk) != ""
  {
    EncodeLength(rk.raw);
  }
}
