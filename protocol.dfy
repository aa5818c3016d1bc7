/**
 * The send path end to end: the body the chat session posts for a message is
 * accepted by the message route's validation chain, and the row stored from it
 * decrypts back to the message under the same room key.
 */
module SendProtocol {
  import opened Wrappers
  import opened Base64
  import opened Json
  import opened Crypto
  import opened MessageCrypto
  import opened KeyStore
  import JsString
  import PartyChat
  import MessagesRoute

  /** The chat's POST body as the route reads its fields. */
  lemma OutgoingFields(o: PartyChat.OutgoingMessage)
    ensures var b := PartyChat.OutgoingJson(o);
      IsObject(b) && !Has(b, "content") &&
      Get(b, "party_id") == Some(JString(o.partyId)) &&
      Get(b, "ciphertext") == Some(JString(o.ciphertext)) &&
      Get(b, "nonce") == Some(JString(o.nonce)) &&
      Get(b, "e2e_version") == Some(JNumber(JsNumber.Decimal(1, 0))) &&
      Get(b, "sender_device_id") == Some(JString(o.senderDeviceId))
  {
    var props := [("party_id", Some(JString(o.partyId))),
                  ("ciphertext", Some(JString(o.ciphertext))),
                  ("nonce", Some(JString(o.nonce))),
                  ("e2e_version", Some(JNumber(JsNumber.Decimal(1, 0)))),
                  ("sender_device_id", Some(JString(o.senderDeviceId)))];
    forall i | 0 <= i < |props|
      ensures Get(ObjectOf(props), props[i].0) == props[i].1
    {
      GetObjectOf(props, props[i].0);
      LastValueOfDistinct(props, i, |props|);
    }
    assert props[0].0 == "party_id" && props[1].0 == "ciphertext" && props[2].0 == "nonce";
    assert props[3].0 == "e2e_version" && props[4].0 == "sender_device_id";
    GetObjectOf(props, "content");
    LastValueOfAbsent(props, "content", |props|);
  }

  /** Text in the base64 alphabet is ASCII, so its JavaScript length is its number of characters. */
  lemma Base64TextLength(s: string)
    requires forall k :: 0 <= k < |s| ==> IsAlphabetChar(s[k]) || s[k] == '='
    ensures JsString.Utf16Length(s) == |s|
  {
    JsString.Utf16LengthOfBmp(s);
  }

  /**
   * The body `handleSend` posts passes every check of the route, as long as the party
   * id is not empty and the encoded ciphertext is within the 8192-character limit;
   * the validated message carries exactly what was sent.
   */
  lemma ClientBodyAccepted(partyId: string, content: string, rk: RoomKey, device: StoredDeviceKey,
                           iv: seq<byte>, gcmSeal: PartyChat.GcmSeal)
    requires |iv| == IvBytes && partyId != ""
    requires |gcmSeal(rk, iv, content)| > 0
    requires |Encode(gcmSeal(rk, iv, content))| <= MessagesRoute.MaxCiphertextLength
    ensures var o := PartyChat.Outgoing(partyId, content, rk, device, iv, gcmSeal);
      MessagesRoute.ValidatePost(PartyChat.OutgoingJson(o)) ==
        Ok(MessagesRoute.ValidMessage(partyId, o.ciphertext, o.nonce, Some(device.deviceId)))
  {
    var o := PartyChat.Outgoing(partyId, content, rk, device, iv, gcmSeal);
    OutgoingFields(o);
    NonceShape(content, rk, iv, gcmSeal);
    CiphertextShape(content, rk, iv, gcmSeal);
    Base64TextLength(o.ciphertext);
    Base64TextLength(o.nonce);
    JsNumber.ValueOfInt(1);
    var b := PartyChat.OutgoingJson(o);
    assert MessagesRoute.PartyIdOk(b) && MessagesRoute.CiphertextPresent(b) && MessagesRoute.NoncePresent(b);
    assert MessagesRoute.IsVersionOne(Get(b, "e2e_version"));
    assert MessagesRoute.IsBase64Text(o.ciphertext) && MessagesRoute.IsBase64Text(o.nonce);
  }

  /** A ciphertext over the limit is refused with the length message, and nothing else is. */
  lemma LongCiphertextRefused(partyId: string, content: string, rk: RoomKey, device: StoredDeviceKey,
                              iv: seq<byte>, gcmSeal: PartyChat.GcmSeal)
    requires |iv| == IvBytes && partyId != ""
    requires |Encode(gcmSeal(rk, iv, content))| > MessagesRoute.MaxCiphertextLength
    ensures var o := PartyChat.Outgoing(partyId, content, rk, device, iv, gcmSeal);
      MessagesRoute.ValidatePost(PartyChat.OutgoingJson(o)) == Err(MessagesRoute.CiphertextTooLong)
  {
    var o := PartyChat.Outgoing(partyId, content, rk, device, iv, gcmSeal);
    OutgoingFields(o);
    EncodeCharset(gcmSeal(rk, iv, content));
    Base64TextLength(o.ciphertext);
  }

  /**
   * What the route stores from the chat's body is read back by any member holding
   * the room key: the stored ciphertext and nonce decrypt to the message sent.
   */
  lemma StoredMessageDecrypts(partyId: string, content: string, rk: RoomKey, device: StoredDeviceKey,
                              iv: seq<byte>, gcmSeal: PartyChat.GcmSeal, gcmOpen: PartyChat.GcmOpen)
    requires |iv| == IvBytes && partyId != ""
    requires |gcmSeal(rk, iv, content)| > 0
    requires |Encode(gcmSeal(rk, iv, content))| <= MessagesRoute.MaxCiphertextLength
    requires gcmOpen(rk, iv, gcmSeal(rk, iv, content)) == Some(content)
    ensures var v := MessagesRoute.ValidatePost(PartyChat.OutgoingJson(PartyChat.Outgoing(partyId, content, rk, device, iv, gcmSeal)));
      v.Ok? && DecryptMessage(v.value.ciphertext, v.value.nonce, rk, gcmOpen) == Some(content)
  {
    ClientBodyAccepted(partyId, content, rk, device, iv, gcmSeal);
    DecryptEncryptedMessage(content, rk, iv, gcmSeal, gcmOpen);
  }
}
