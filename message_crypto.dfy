/**
 * Message encryption: plaintext under the room key with AES-GCM and a 12-byte random
 * IV, then ciphertext and IV each base64-encoded.  AES-GCM itself is a parameter:
 * `gcmSeal(key, iv, plaintext)` gives the ciphertext bytes, `gcmOpen(key, iv, data)`
 * the plaintext or `None` when authentication fails (wrong key, tampered data).
 */
module MessageCrypto {
  import opened Wrappers
  import opened Base64
  import opened Crypto
  import Keys

  /** The IV length of `encryptMessage` (96 bits, the AES-GCM default). */
  const IvBytes: nat := 12

  datatype EncryptedPayload = EncryptedPayload(ciphertext: string, nonce: string)

  /** `encryptMessage`: the IV is the random input. */
  function EncryptMessage(plaintext: string, rk: RoomKey, iv: seq<byte>,
                          gcmSeal: (RoomKey, seq<byte>, string) -> seq<byte>): EncryptedPayload
    requires |iv| == IvBytes
  {
    EncryptedPayload(Encode(gcmSeal(rk, iv, plaintext)), Encode(iv))
  }

  /**
   * `decryptMessage`: any failure, including malformed base64 in either argument,
   * is caught and becomes `None` (the `null` result).
   */
  function DecryptMessage(ciphertext: string, nonce: string, rk: RoomKey,
                          gcmOpen: (RoomKey, seq<byte>, seq<byte>) -> Option<string>): (r: Option<string>)
    ensures Atob(nonce).None? || Atob(ciphertext).None? ==> r.None?
  {
    var iv := Atob(nonce);
    var data := Atob(ciphertext);
    if iv.None? || data.None? then None
    else gcmOpen(rk, Latin1Bytes(iv.value), Latin1Bytes(data.value))
  }

  /**
   * Decryption inverts encryption whenever AES-GCM does: the base64 layers on both
   * sides cancel out.
   */
  lemma DecryptEncryptedMessage(plaintext: string, rk: RoomKey, iv: seq<byte>,
                                gcmSeal: (RoomKey, seq<byte>, string) -> seq<byte>,
                                gcmOpen: (RoomKey, seq<byte>, seq<byte>) -> Option<string>)
    requires |iv| == IvBytes
    requires gcmOpen(rk, iv, gcmSeal(rk, iv, plaintext)) == Some(plaintext)
    ensures var p := EncryptMessage(plaintext, rk, iv, gcmSeal);
      DecryptMessage(p.ciphertext, p.nonce, rk, gcmOpen) == Some(plaintext)
  {
    Keys.DecodeOfEncodeIsIdentity(iv);
    Keys.DecodeOfEncodeIsIdentity(gcmSeal(rk, iv, plaintext));
  }

  /** The nonce of every encrypted message is 16 characters of the base64 alphabet, with no padding. */
  lemma NonceShape(plaintext: string, rk: RoomKey, iv: seq<byte>,
                   gcmSeal: (RoomKey, seq<byte>, string) -> seq<byte>)
    requires |iv| == IvBytes
    ensures var n := EncryptMessage(plaintext, rk, iv, gcmSeal).nonce;
      |n| == 16 && forall i :: 0 <= i < |n| ==> IsAlphabetChar(n[i])
  {
    EncodeLength(iv);
    EncodeUnpaddedAlphabet(iv);
    assert Padding(|iv|) == "";
    assert Encode(iv) == EncodeUnpadded(iv);
  }

  /** Every ciphertext is non-empty, padded base64 text. */
  lemma CiphertextShape(plaintext: string, rk: RoomKey, iv: seq<byte>,
                        gcmSeal: (RoomKey, seq<byte>, string) -> seq<byte>)
    requires |iv| == IvBytes
    requires |gcmSeal(rk, iv, plaintext)| > 0
    ensures var c := EncryptMessage(plaintext, rk, iv, gcmSeal).ciphertext;
      |c| > 0 && |c| % 4 == 0 && forall i :: 0 <= i < |c| ==> IsAlphabetChar(c[i]) || c[i] == '='
  {
    var b := gcmSeal(rk, iv, plaintext);
    EncodeLength(b);
    EncodeCharset(b);
  }
}
