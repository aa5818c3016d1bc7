# vibe-app core, modelled in Dafny

This project models the core of vibe-app, a Telegram mini app for meeting people
nearby. Hosts put "vibes" (parties) on a map; guests ask to join them, members
chat end to end encrypted, and users can report one another.

The model covers the following:

- **End-to-end chat.** This is the `PartyChat` component.
  - Its setup finds or creates the device's ECDH identity.
  - The room key comes from the local cache, or from the entry sealed for this user, or from a bootstrap that generates a key, seals it for every member and re-reads the user's own slot to settle a race with other writers.
  - It decrypts the message list and live messages, deduplicates live messages by id, and sends encrypted messages.
- **Client crypto helpers.**
  - The base64 helpers of `lib/crypto/keys.ts`, over `btoa`/`atob`.
  - The IndexedDB key store of `lib/crypto/store.ts`.
  - `encryptMessage`/`decryptMessage` of `lib/crypto/message.ts`.
- **Route handlers.**
  - `POST`/`GET /api/parties/messages`
  - `POST /api/parties/create`
  - `POST`/`GET /api/parties/request`
  - `POST /api/reports`
  - `GET /api/parties/nearby`, in both versions: _review/last_v2/parties_nearby_route.ts, and _review/last_v2_2/parties_nearby_route.ts with its dev-mode mock list
  - `POST /api/profile/sync`
  - Each handler is a function of the request and of a snapshot of what its queries return.
- **The session middleware**, in both versions: lib/supabase/middleware.ts and gpt_revue/lib/supabase/middleware.ts. It covers the debug-page block, the dev bypass, the login redirect, cookie refresh and the noindex header.
- **Client components.**
  - The join button
  - The report dialog
  - The profile card
  - The map's search, debounce and mood-emoji logic

Each component state that the source updates in place is a Dafny `class` with `modifies` clauses. The stateful components are:

- the chat session
- the key store
- the remote tables
- the request and response of the middleware
- the join button
- the report dialog
- the map view

Route handlers and pure helpers are functions, with lemmas relating them.

Several modules cross component boundaries. `SendProtocol` checks that the body the chat posts passes every check of the messages route, and that what the route stores decrypts back to the message sent. `JoinButton`, `ReportButton` and `VibeMap` each read the answers of the route they call.

Shared definitions:

- **`JsString`:** ECMAScript `trim`, `startsWith`, `includes`, `slice` in UTF-16 code units, and `toLowerCase` as far as ASCII matching can tell.
- **`JsNumber`:**
  - `Number(string)` and `parseFloat`
  - `String(number)`
  - `Math.min` and `Math.max`, with NaN
  - numbers kept as exact decimals
- **`Json`:** parsed JSON values and property reads.
- **`Base64`:**
  - the RFC 4648 section 4 encoding
  - the WHATWG forgiving-base64 decoding used by `atob`
- **`Crypto`:** a symbolic model of ECDH, key wrapping and AES-GCM.

Where the code is surprising, the model follows the code:

- The noindex and protected-path tests are plain prefix tests, so `/mapping` counts as being under `/map`. The comment at lib/supabase/middleware.ts:75-78 lists whole pages, but the code uses `startsWith`.
- lib/supabase/middleware.ts forces `SameSite=None; Secure` on refreshed cookies; gpt_revue/lib/supabase/middleware.ts passes the options through.
- The report route lets any truthy `target_type` through to its membership test. A non-string `target_type` is therefore refused with 400 rather than defaulted to `"user"`.

## Model

| member | source | states |
|---|---|---|
| `Base64.CharValue` | lib/crypto/keys.ts:57-58 | decoding a base64 alphabet character gives the 6-bit value the encoding table maps back to that character |
| `Base64.BinaryString` | lib/crypto/keys.ts:50-53 | the string built by `String.fromCharCode` over the bytes has one character per byte with that byte's code, and every code is at most 255 |
| `Base64.Latin1Bytes` | lib/crypto/keys.ts:59-62 | reading `charCodeAt(i)` of a binary string gives one byte per character, equal to its code |
| `Base64.Latin1OfBinary` | lib/crypto/keys.ts:48-64 | the bytes of the binary string built from bytes are those bytes |
| `Base64.EncodeUnpaddedLength` | lib/crypto/keys.ts:54 | the unpadded encoding has four characters per three bytes, with the last group cut short |
| `Base64.EncodeUnpaddedAlphabet` | lib/crypto/keys.ts:54 | an unpadded encoding uses only alphabet characters, and its length is never 1 modulo 4 |
| `Base64.EncodeUnpaddedIsAlphabet` | lib/crypto/keys.ts:54 | every character of an unpadded encoding is in the base64 alphabet |
| `Base64.EncodeLength` | lib/crypto/keys.ts:54 | `btoa` output is four characters per started group of three bytes: a multiple of four, and at least four for non-empty input |
| `Base64.EncodeCharset` | lib/crypto/keys.ts:54 | every character of an encoding is an alphabet character or `=` |
| `Base64.Btoa` | lib/crypto/keys.ts:54 | `btoa` succeeds exactly on binary strings (it throws on a code above 255) |
| `Base64.RemoveAsciiWhitespace` | lib/crypto/keys.ts:58 | the whitespace-stripping step of `atob` leaves no ASCII whitespace and never lengthens the input |
| `Base64.StripPadding` | lib/crypto/keys.ts:58 | padding removal only drops characters from the end |
| `Base64.DecodeQuantum` | lib/crypto/keys.ts:58 | a quantum of 2, 3 or 4 characters decodes to 1, 2 or 3 bytes |
| `Base64.Atob` | lib/crypto/keys.ts:58 | whatever `atob` returns is a binary string |
| `Base64.GroupRoundTrip` | lib/crypto/keys.ts:54-58 | one full 24-bit group encodes to four alphabet characters that decode back to its three bytes |
| `Base64.DecodeGroupThenRest` | lib/crypto/keys.ts:58 | decoding works quantum by quantum: a leading group of four characters decodes on its own |
| `Base64.DecodeEncodeStep` | lib/crypto/keys.ts:54-58 | the induction step of the round trip: a leading three-byte group and the rest decode back |
| `Base64.DecodeEncodeUnpadded` | lib/crypto/keys.ts:54-58 | decoding an unpadded encoding gives back the original bytes |
| `Base64.StripPaddingOfEncode` | lib/crypto/keys.ts:54-58 | stripping the padding turns an encoding back into its unpadded form |
| `Base64.NoWhitespaceUnchanged` | lib/crypto/keys.ts:58 | text without whitespace passes the whitespace removal unchanged |
| `Base64.AtobOfEncode` | lib/crypto/keys.ts:54-58 | `atob` of the encoding of some bytes is the binary string of those bytes |
| `Base64.EncodeIsClean` | lib/crypto/keys.ts:54 | an encoding has no whitespace and consists of whole quanta |
| `Base64.AtobBtoa` | lib/crypto/keys.ts:54-58 | for every binary string, `btoa` succeeds and `atob` gives the string back |
| `Keys.ArrayBufferToBase64` | lib/crypto/keys.ts:48-55 | the loop builds the binary string of the buffer, and the result is the padded base64 encoding of the buffer's bytes |
| `Keys.ToUint8` | lib/crypto/keys.ts:61 | a store into a `Uint8Array` keeps values 0-255 and otherwise reduces modulo 256 |
| `Keys.Base64ToArrayBuffer` | lib/crypto/keys.ts:57-64 | it fails exactly when `atob` throws; otherwise the buffer has `binary.length` bytes equal to the character codes |
| `Keys.DecodeOfEncodeIsIdentity` | lib/crypto/keys.ts:48-64 | decoding the encoding of any bytes succeeds and gives those bytes |
| `Keys.EncodeDecodeBuffer` | lib/crypto/keys.ts:48-64 | `base64ToArrayBuffer(arrayBufferToBase64(buf))` holds the same bytes as `buf` |
| `Crypto.SharedSecretAgrees` | lib/crypto/keys.ts:8-9 | ECDH agreement: the two ends of a pair of key pairs derive the same secret |
| `Crypto.UnsealSealedForMe` | gpt_revue/features/chat/PartyChat.tsx:145-152 | a room key sealed by A for B unseals for B with A's public key |
| `Crypto.UnsealByOtherFails` | gpt_revue/features/chat/PartyChat.tsx:145-152 | a third key pair cannot unseal a key sealed between A and B |
| `Crypto.ImportRoomKey` | gpt_revue/features/chat/PartyChat.tsx:133-135 | an imported room key always has a raw length AES accepts |
| `Crypto.ImportExportRoomKey` | gpt_revue/features/chat/PartyChat.tsx:133-160 | a valid room key survives the export to the local cache and the import back |
| `Crypto.ExportedRoomKeyNonEmpty` | gpt_revue/features/chat/PartyChat.tsx:133-134 | an exported room key is never empty, so a cached key always takes the cache-hit branch |
| `MessageCrypto.DecryptMessage` | gpt_revue/lib/crypto/message.ts:46-66 | malformed base64 in the nonce or the ciphertext gives `null` |
| `MessageCrypto.DecryptEncryptedMessage` | gpt_revue/lib/crypto/message.ts:23-66 | decryption inverts encryption whenever AES-GCM does: the base64 layers cancel out |
| `MessageCrypto.NonceShape` | gpt_revue/lib/crypto/message.ts:11-38 | every nonce is 16 base64 alphabet characters, without padding |
| `MessageCrypto.CiphertextShape` | gpt_revue/lib/crypto/message.ts:30-37 | every ciphertext is non-empty padded base64 text |
| `KeyStore.LocalKeyStore.constructor` | gpt_revue/lib/crypto/store.ts:16-31 | opening a new database creates both object stores empty: no device key and no room key |
| `KeyStore.LocalKeyStore.IdbGet` | gpt_revue/lib/crypto/store.ts:33-41 | reading a key gives its stored value, or `undefined` when it is absent |
| `KeyStore.LocalKeyStore.IdbPut` | gpt_revue/lib/crypto/store.ts:43-51 | writing a key replaces that entry of that store only |
| `KeyStore.LocalKeyStore.GetStoredDeviceKey` | gpt_revue/lib/crypto/store.ts:61-63 | it returns the device record stored under `"current"` |
| `KeyStore.LocalKeyStore.StoreDeviceKey` | gpt_revue/lib/crypto/store.ts:65-67 | the device key is replaced and no room key changes |
| `KeyStore.LocalKeyStore.GetStoredRoomKey` | gpt_revue/lib/crypto/store.ts:71-73 | it returns the cached room key of the party |
| `KeyStore.LocalKeyStore.StoreRoomKey` | gpt_revue/lib/crypto/store.ts:75-77 | only this party's room key changes; the device key is untouched even for a party named `"current"` (the stores are separate) |
| `KeyStore.StoreThenGet` | gpt_revue/lib/crypto/store.ts:61-77 | a read right after a store of the same slot gives what was stored |
| `Remote.Fill` | gpt_revue/features/chat/PartyChat.tsx:162-175 | other writers only fill slots: every key of the table stays, and new ones are added |
| `Remote.InsertIfAbsent` | gpt_revue/features/chat/PartyChat.tsx:162-175 | `ensure_party_room_key` never overwrites; it fills an empty slot with the given entry |
| `Remote.RowsOf` | gpt_revue/features/chat/PartyChat.tsx:86-91 | the device query returns exactly the rows of that user with the `"default"` label |
| `Remote.FirstDeviceOf` | gpt_revue/features/chat/PartyChat.tsx:187-192 | `.limit(1).maybeSingle()` finds a device exactly when the user has one, and it is one of theirs |
| `Remote.WithPublicKey` | gpt_revue/features/chat/PartyChat.tsx:99-105 | the update rewrites the public key of the rows with that id and leaves every other row as it was |
| `Remote.InsertedDevice` | gpt_revue/features/chat/PartyChat.tsx:114-120 | a new device row is appended unless its id is already taken, in which case the table is unchanged |
| `Remote.OtherMembers` | gpt_revue/features/chat/PartyChat.tsx:178-183 | the member query lists exactly the members other than the caller |
| `Remote.RemoteStore.SelectOwnDevice` | gpt_revue/features/chat/PartyChat.tsx:86-91 | it returns the single `"default"` device row of the user, and nothing changes except the call log |
| `Remote.RemoteStore.UpdateDeviceKey` | gpt_revue/features/chat/PartyChat.tsx:99-105 | only the device table changes, by the update of that row's key |
| `Remote.RemoteStore.InsertDevice` | gpt_revue/features/chat/PartyChat.tsx:114-120 | only the device table changes, by the insert |
| `Remote.RemoteStore.TakeTurn` | gpt_revue/features/chat/PartyChat.tsx:162-229 | the concurrent writers take their next turn, and no existing room-key entry is lost |
| `Remote.RemoteStore.SelectRoomKey` | gpt_revue/features/chat/PartyChat.tsx:138-143 | after the other writers' turn, it returns the entry in the slot, if any |
| `Remote.RemoteStore.EnsureRoomKey` | gpt_revue/features/chat/PartyChat.tsx:169-175 | if the write lands, it is an insert into an empty slot only; existing entries are kept |
| `Remote.RemoteStore.SelectOtherMembers` | gpt_revue/features/chat/PartyChat.tsx:178-183 | it returns the party members other than the caller and changes nothing |
| `Remote.RemoteStore.SelectMemberDevice` | gpt_revue/features/chat/PartyChat.tsx:187-192 | it returns the member's first device and changes nothing |
| `PartyChat.DecryptWire` | gpt_revue/features/chat/PartyChat.tsx:247-266 | ids, party, sender and time are copied; the failure flag is set exactly when there is no plaintext; and a message is not decrypted without a room key, ciphertext and nonce |
| `PartyChat.DecryptWireMessages` | gpt_revue/features/chat/PartyChat.tsx:243-271 | every wire message is decrypted, keeping order and length |
| `PartyChat.DecryptKeepsIds` | gpt_revue/features/chat/PartyChat.tsx:243-271 | the decrypted list keeps the wire ids in order, and without a room key every entry is flagged as failed |
| `PartyChat.OwnMessageDecrypts` | gpt_revue/features/chat/PartyChat.tsx:346-358 | a message sent by this client decrypts to what was typed for any holder of the room key |
| `PartyChat.Reverse` | gpt_revue/features/chat/PartyChat.tsx:290 | the newest-first list is put in oldest-first order |
| `PartyChat.AppendIfNew` | gpt_revue/features/chat/PartyChat.tsx:314-317 | a live message is appended unless a message with its id is already shown |
| `PartyChat.AppendKeepsIdsUnique` | gpt_revue/features/chat/PartyChat.tsx:311-317 | live appends keep ids unique, keep the earlier messages in front, and the message is shown afterwards |
| `PartyChat.EnsureDeviceIdentity` | gpt_revue/features/chat/PartyChat.tsx:79-130 | a stored identity is reused with no remote call; otherwise a fresh key pair re-keys the existing `"default"` device row, keeping its id, or registers a new one; the identity is stored, and room keys are untouched |
| `PartyChat.EntryFor` | gpt_revue/features/chat/PartyChat.tsx:163-175 | a sealed entry records the sender's device id and public key and carries the room key |
| `PartyChat.SlotKey` | gpt_revue/features/chat/PartyChat.tsx:145-152 | a key obtained from an entry is the key sealed in it |
| `PartyChat.CarriedKeyUnique` | gpt_revue/features/chat/PartyChat.tsx:211-229 | an entry carries at most one room key, so the key setup settles on is determined by the user's slot |
| `PartyChat.CarriedKeyUnseals` | gpt_revue/features/chat/PartyChat.tsx:211-229 | for a matched key pair, an entry that carries a key also unseals to it with the user's private key |
| `PartyChat.PublishedKey` | gpt_revue/features/chat/PartyChat.tsx:187-194 | a member's published key is taken from one of that member's device rows |
| `PartyChat.FanOutTargetsOnly` | gpt_revue/features/chat/PartyChat.tsx:185-209 | every write of the fan-out is an insert-if-absent into a target's slot, carrying the room key sealed for that target's published key; no device rows are written |
| `PartyChat.FanOutReachesAll` | gpt_revue/features/chat/PartyChat.tsx:185-209 | every target with a published key is sent the room key |
| `PartyChat.FanOutSkipsMe` | gpt_revue/features/chat/PartyChat.tsx:178-209 | fanning out to the other members never writes into the user's own slot |
| `PartyChat.FanOut` | gpt_revue/features/chat/PartyChat.tsx:185-209 | the loop issues exactly the fan-out calls in member order, touches no device or member row, and loses no room-key entry |
| `PartyChat.BootstrapWritesOnlyEnsures` | gpt_revue/features/chat/PartyChat.tsx:156-229 | the bootstrap path writes only room-key inserts, and into the user's own slot only the user's own seal |
| `PartyChat.Bootstrap` | gpt_revue/features/chat/PartyChat.tsx:156-229 | it caches and adopts the generated key, self-seals, fans out and re-reads the slot; when another writer got there first, it adopts and caches the key that writer sealed for the user |
| `PartyChat.ObtainRoomKey` | gpt_revue/features/chat/PartyChat.tsx:132-231 | a cache hit is imported with no remote call; else the entry sealed for the user is unsealed and cached; else the bootstrap runs; other parties' cache entries and the device key are untouched |
| `PartyChat.SetupKeys` | gpt_revue/features/chat/PartyChat.tsx:77-233 | after both steps the device key is stored, and on success the room key is converged: imported from the cache, or cached and agreeing with the user's slot |
| `PartyChat.SendError` | gpt_revue/features/chat/PartyChat.tsx:361-376 | a thrown send shows the network error; success and 429 keep the error; any other refusal shows the server's message or the generic one, and the network error when its body is not JSON or is `null` |
| `PartyChat.ChatSession.constructor` | gpt_revue/features/chat/PartyChat.tsx:59-71 | the chat starts empty, loading, not sending, without error, not rate-limited, and not ready, with no keys |
| `PartyChat.ChatSession.Setup` | gpt_revue/features/chat/PartyChat.tsx:74-240 | on success the chat becomes ready with both keys in place and the room key converged; on an exception the setup error is shown; nothing else changes |
| `PartyChat.ChatSession.LoadMessages` | gpt_revue/features/chat/PartyChat.tsx:274-295 | before the chat is ready nothing happens; afterwards loading ends, a listed page is shown oldest first and decrypted, a refusal shows the server's message or the generic one, and a throw (including a refusal whose body is not JSON or is `null`) shows the network error |
| `PartyChat.ChatSession.ReceiveLive` | gpt_revue/features/chat/PartyChat.tsx:298-325 | a ready chat appends the decrypted live message unless its id is already shown; nothing else changes |
| `PartyChat.ChatSession.StartSend` | gpt_revue/features/chat/PartyChat.tsx:335-359 | a body is produced exactly when the guard passes (trimmed text, not sending, not rate-limited, ready, both keys); it is the encrypted trimmed input with version 1 and the device id, with `sending` set and the error cleared |
| `PartyChat.ChatSession.FinishSend` | gpt_revue/features/chat/PartyChat.tsx:361-379 | sending ends; a 429 sets the rate limit; the input is cleared only when the server accepted; the error is `SendError` |
| `PartyChat.ChatSession.RateLimitExpired` | gpt_revue/features/chat/PartyChat.tsx:363 | the ten-second timer clears the rate limit and nothing else |
| `PartyChat.ChatSession.SetInput` | gpt_revue/features/chat/PartyChat.tsx:60 | typing replaces the input and nothing else |
| `SendProtocol.OutgoingFields` | gpt_revue/features/chat/PartyChat.tsx:352-358 | the posted JSON holds `party_id`, `ciphertext`, `nonce`, `e2e_version: 1` and `sender_device_id` as sent, and no `content` |
| `SendProtocol.Base64TextLength` | app/api/parties/messages/route.ts:83-98 | base64 text is ASCII, so its JavaScript length is its number of characters |
| `SendProtocol.ClientBodyAccepted` | app/api/parties/messages/route.ts:50-125 | the chat's body passes every check of the route when the party id is non-empty and the ciphertext fits 8192 characters, and the validated message carries exactly what was sent |
| `SendProtocol.LongCiphertextRefused` | app/api/parties/messages/route.ts:83-88 | a ciphertext over the limit gets the length error and no other |
| `SendProtocol.StoredMessageDecrypts` | app/api/parties/messages/route.ts:143-158 | the stored ciphertext and nonce decrypt to the message sent, for any member holding the room key |
| `MessagesRoute.ValidatePost` | app/api/parties/messages/route.ts:50-125 | an accepted body is an object with no `content` field |
| `MessagesRoute.ValidatePostOkIff` | app/api/parties/messages/route.ts:50-125 | a body passes exactly when it meets every requirement of the chain (party id, no `content`, ciphertext of 1-8192 characters, nonce of 12-32 characters, version 1, both base64), and the validated fields are those of the body |
| `MessagesRoute.ContentAlwaysRejected` | app/api/parties/messages/route.ts:69-74 | a body carrying `content` is refused with the plaintext message whatever else it holds, once it names a party |
| `MessagesRoute.Post` | app/api/parties/messages/route.ts:11-172 | once the insert is issued, the answer is 200 or 500 |
| `MessagesRoute.PostUnauthenticated` | app/api/parties/messages/route.ts:18-20 | without a session the answer is 401 and no insert is issued |
| `MessagesRoute.PostRateLimit` | app/api/parties/messages/route.ts:22-48 | a limiter refusal gives 429; a limiter error gives 503 in production and is ignored elsewhere |
| `MessagesRoute.PostInsertShape` | app/api/parties/messages/route.ts:127-167 | the insert is issued exactly for an authenticated member within the rate limit with a valid body; it belongs to the caller, has version 1 and the sender device id only when that was a string; a successful insert is echoed |
| `MessagesRoute.PageLimit` | app/api/parties/messages/route.ts:188-191 | the page limit is never above 100 |
| `MessagesRoute.MinOfInts` | app/api/parties/messages/route.ts:189-190 | `Math.min(n, 100)` of a whole number is the smaller of the two |
| `MessagesRoute.PageLimitOfDigits` | app/api/parties/messages/route.ts:188-191 | a plain number gives itself up to 100 and 100 above |
| `MessagesRoute.PageLimitDefault` | app/api/parties/messages/route.ts:188-191 | an absent or empty `limit` gives 50 |
| `MessagesRoute.HasMoreIff` | app/api/parties/messages/route.ts:236-239 | `has_more` is set exactly when the page is full |
| `MessagesRoute.Matching` | app/api/parties/messages/route.ts:216-225 | the query selects exactly the party's rows before the cursor, if one applies |
| `MessagesRoute.MatchingNewestFirst` | app/api/parties/messages/route.ts:219-221 | over a table in creation order, the selected rows come newest first |
| `MessagesRoute.Page` | app/api/parties/messages/route.ts:216-227 | over a table in creation order, the page is the `limit` newest matching rows, newest first: at most `limit` rows, all matching; every matching row when it is not full; and a matching row left out only when the page is full and it is no newer than any row kept |
| `MessagesRoute.ShortPageIsComplete` | app/api/parties/messages/route.ts:216-239 | a page that is not full holds every matching row, so `has_more == false` leaves nothing out |
| `MessagesRoute.PageSize` | app/api/parties/messages/route.ts:188-191 | the row count asked for exists exactly when the limit is a whole, non-negative number, and then equals it |
| `MessagesRoute.CursorFilter` | app/api/parties/messages/route.ts:223-225 | `if (cursor)`: an absent or empty cursor filters nothing; any other is the timestamp the database reads from it, or that reading's error |
| `MessagesRoute.PageQuery` | app/api/parties/messages/route.ts:188-227 | the query succeeds exactly when it has a usable row count and cursor and does not fail otherwise, and then yields `Page` for that party, cursor and count |
| `MessagesRoute.List` | app/api/parties/messages/route.ts:174-244 | no session gives 401; a missing or empty `party_id` gives 400; a non-member gets 403; a failed page query gives 500 with its message |
| `MessagesRoute.GetListsPage` | app/api/parties/messages/route.ts:200-239 | for any limit that is a whole number `n`, a member's successful GET answers 200 with the page of the `n` newest matching rows and `has_more` exactly when that page is full |
| `MessagesRoute.GetDefaultPage` | app/api/parties/messages/route.ts:186-239 | without `limit` and cursor, a member gets the 50 newest rows of the party, with `has_more` exactly when there are 50 |
| `CreateRoute.Validate` | gpt_revue/app/api/parties/create/route.ts:19-66 | an accepted body has a known mood and a description of 5-280 UTF-16 code units |
| `CreateRoute.FirstFailure` | gpt_revue/app/api/parties/create/route.ts:19-50 | there is no failure message exactly when every check passes |
| `CreateRoute.ValidateReportsFirstFailure` | gpt_revue/app/api/parties/create/route.ts:19-66 | validation fails exactly when some requirement fails, and it reports the first one in order |
| `CreateRoute.ValidateEchoes` | gpt_revue/app/api/parties/create/route.ts:52-65 | an accepted body's fields are echoed unchanged; `location_name` is the given string, or empty when it is missing or not a string |
| `CreateRoute.FirstRow` | gpt_revue/app/api/parties/create/route.ts:107 | there is a first row exactly when the data is a non-empty array |
| `CreateRoute.LocationOrEmpty` | gpt_revue/app/api/parties/create/route.ts:120 | a null or missing location name becomes `""`; any other value is kept |
| `CreateRoute.Post` | gpt_revue/app/api/parties/create/route.ts:68-128 | the RPC is called only with the validated body |
| `CreateRoute.PostUnauthenticated` | gpt_revue/app/api/parties/create/route.ts:75-77 | without a session the answer is 401 and nothing is created |
| `CreateRoute.PostRejectsInvalid` | gpt_revue/app/api/parties/create/route.ts:79-86 | an invalid body gets 400 with the first failure's message, and nothing is created |
| `CreateRoute.PostEmptyResult` | gpt_revue/app/api/parties/create/route.ts:107-113 | no usable first row gives 500 after the RPC was called with the validated body |
| `CreateRoute.PostEchoesRow` | gpt_revue/app/api/parties/create/route.ts:115-123 | the created row's fields are echoed, with a missing location name as `""` |
| `RequestRoute.ExistingResponse` | gpt_revue/app/api/parties/request/route.ts:87-97 | an earlier request is answered 409 with its status |
| `RequestRoute.Post` | gpt_revue/app/api/parties/request/route.ts:8-127 | the request row sent to the insert is always pending |
| `RequestRoute.PostUnauthenticated` | gpt_revue/app/api/parties/request/route.ts:15-17 | without a session the answer is 401 and no insert is issued |
| `RequestRoute.PostNeedsPartyId` | gpt_revue/app/api/parties/request/route.ts:19-29 | a body without a string `party_id` gets 400 |
| `RequestRoute.PostPartyChecks` | gpt_revue/app/api/parties/request/route.ts:33-60 | a missing party gives 404, an inactive one 400, and the host 400, before anything about the caller |
| `RequestRoute.PostConflicts` | gpt_revue/app/api/parties/request/route.ts:62-98 | a member gets 409 "Already a member" whatever request exists; otherwise an earlier request gets 409 with its status |
| `RequestRoute.PostInsertsOnlyWhenClear` | gpt_revue/app/api/parties/request/route.ts:8-122 | the insert of a request is issued exactly when every check passes, as pending, for the caller and the party |
| `RequestRoute.OrNull` | gpt_revue/app/api/parties/request/route.ts:170-171 | `x ?? null` gives null for a missing or null value and the value otherwise |
| `RequestRoute.Status` | gpt_revue/app/api/parties/request/route.ts:129-148 | no session gives 401; a missing or empty `party_id` gives 400 |
| `RequestRoute.StatusProjection` | gpt_revue/app/api/parties/request/route.ts:150-172 | the answer is 200; `is_member` is set exactly when there is a membership row; `role` is `membership?.role ?? null` for every membership row, and `request` is the request row or null |
| `ReportsRoute.TargetTypeOf` | gpt_revue/app/api/reports/route.ts:26 | a falsy `target_type` defaults to `"user"`, and any other value is kept as it is |
| `ReportsRoute.StoredReason` | gpt_revue/app/api/reports/route.ts:58 | a string reason is cut to its first 500 UTF-16 code units, and anything else is stored as null |
| `ReportsRoute.Post` | gpt_revue/app/api/reports/route.ts:7-83 | a report row sent to the insert is pending and has target type `"user"` or `"party"` |
| `ReportsRoute.PostGuards` | gpt_revue/app/api/reports/route.ts:14-21 | no session gives 401; a body that is not an object gives 400 |
| `ReportsRoute.PostInsertsOnlyValid` | gpt_revue/app/api/reports/route.ts:23-62 | the insert of a report is issued exactly when the reported id is a non-empty string other than the caller and the target type is valid; the row records the caller, the target, the type and the cut reason |
| `ReportsRoute.PostRefusesSelf` | gpt_revue/app/api/reports/route.ts:42-47 | reporting oneself gets 400 "Cannot report yourself" |
| `ReportsRoute.StoredReasonBound` | gpt_revue/app/api/reports/route.ts:58 | the stored reason has at most 500 code units, and a short reason is kept whole |
| `ReportsRoute.PostInsertErrors` | gpt_revue/app/api/reports/route.ts:64-76 | a unique violation gets 409 "Already reported"; any other insert error gets 500 with its message |
| `NearbyV2.ParseNumber` | _review/last_v2/parties_nearby_route.ts:16-20 | a missing or empty parameter, or one that does not parse to a finite number, gives the fallback |
| `NearbyV2.ParseNumberOfDigits` | _review/last_v2/parties_nearby_route.ts:16-20 | a plain number is read as itself, ignoring a trailing unit such as `m` |
| `NearbyV2.ParseNumberOfText` | _review/last_v2/parties_nearby_route.ts:16-20 | text that does not start a number gives the fallback |
| `NearbyV2.ParseBool` | _review/last_v2/parties_nearby_route.ts:22-25 | only `"true"` and `"1"` are true |
| `NearbyV2.ClampRadiusBounds` | _review/last_v2/parties_nearby_route.ts:41-42 | the radius is a finite number in [500, 50000], kept when already inside and clamped to the nearer bound otherwise |
| `NearbyV2.ListOrEmpty` | _review/last_v2/parties_nearby_route.ts:67 | the answer is always a list: the data when it is one |
| `NearbyV2.Authenticated` | _review/last_v2/parties_nearby_route.ts:38-68 | the RPC is called for the authenticated user |
| `NearbyV2.Get` | _review/last_v2/parties_nearby_route.ts:27-73 | without a session the answer is 401 and there is no RPC call |
| `NearbyV2.GetChecksCentre` | _review/last_v2/parties_nearby_route.ts:45-50 | there is an RPC call exactly when the parsed centre is in range; an out-of-range centre gets 400 |
| `NearbyV2.GetCallArguments` | _review/last_v2/parties_nearby_route.ts:39-58 | the RPC gets the parsed centre, the clamped radius in [500, 50000], the `my` flag and the caller's id |
| `NearbyV2.GetDefaults` | _review/last_v2/parties_nearby_route.ts:39-43 | without parameters the centre is (0, 0) and the radius 15000 |
| `NearbyV2.GetListsParties` | _review/last_v2/parties_nearby_route.ts:60-68 | a successful call is answered with the RPC's list, or with an empty list when the data is not one |
| `NearbyV22.Filter` | _review/last_v2_2/parties_nearby_route.ts:49-54 | the filter keeps exactly the mock parties within the radius (and, for `my`, hosted by the dev user) and never grows the list |
| `NearbyV22.View` | _review/last_v2_2/parties_nearby_route.ts:56-66 | the listed party copies the mock's fields, with missing text as `""` |
| `NearbyV22.Get` | _review/last_v2_2/parties_nearby_route.ts:37-116 | dev mode answers 200 without calling the RPC |
| `NearbyV22.ProductionIsV2` | _review/last_v2_2/parties_nearby_route.ts:70-111 | outside dev mode the handler is the `last_v2` handler |
| `NearbyV22.DevListsNearby` | _review/last_v2_2/parties_nearby_route.ts:41-67 | dev mode lists a mock party exactly when it is within the clamped radius of the centre and, for `my`, hosted by the dev user; text fields are filled with `""` |
| `NearbyV22.DevDefaults` | _review/last_v2_2/parties_nearby_route.ts:43-46 | the dev radius is in [500, 50000], and the centre defaults to Moscow |
| `ProfileSync.OptionalText` | app/api/profile/sync/route.ts:16-20 | a null or missing field gives `undefined`, and a string is kept |
| `ProfileSync.ParseTelegramUser` | app/api/profile/sync/route.ts:6-22 | a user is parsed exactly when the body is an object whose `telegramUser` is an object with a numeric `id` |
| `ProfileSync.ParsedFields` | app/api/profile/sync/route.ts:13-21 | a missing first name is empty, optional fields are nullish exactly when absent, and only `true` makes a premium user |
| `ProfileSync.StripAt` | app/api/profile/sync/route.ts:45 | one leading `@` is removed, if any |
| `ProfileSync.ProfileUsername` | app/api/profile/sync/route.ts:44-46 | the username is never empty and is either `@handle` or `tg_<id>` |
| `ProfileSync.UsernameIgnoresAt` | app/api/profile/sync/route.ts:44-46 | a handle gives the same username with or without its `@` |
| `ProfileSync.UsernameKeepsSecondAt` | app/api/profile/sync/route.ts:45 | only one `@` is stripped |
| `ProfileSync.UsernameIdempotent` | app/api/profile/sync/route.ts:44-46 | syncing again with the stored username as the handle changes nothing |
| `ProfileSync.Post` | app/api/profile/sync/route.ts:24-72 | no session gives 401; an unparsable user gives 400 and no write |
| `ProfileSync.PostWritesOwnProfile` | app/api/profile/sync/route.ts:44-58 | a write goes to the caller's own profile, with the computed username and the photo (or null) as avatar |
| `Middleware.HttpRequest.constructor` | lib/supabase/middleware.ts:9 | the request carries its path, query and cookies |
| `Middleware.HttpRequest.SetCookie` | lib/supabase/middleware.ts:46-48 | setting a request cookie replaces that cookie |
| `Middleware.HttpResponse.Next` | lib/supabase/middleware.ts:32-34 | a pass-through response carries the request's cookies and starts with no headers and no cookies of its own |
| `Middleware.HttpResponse.Redirect` | lib/supabase/middleware.ts:16 | a redirect response goes to the location and has no headers or cookies |
| `Middleware.HttpResponse.SetHeader` | lib/supabase/middleware.ts:87 | setting a header replaces it and leaves the cookies alone |
| `Middleware.HttpResponse.SetCookie` | lib/supabase/middleware.ts:50-52 | setting a response cookie replaces one of the same name and leaves the headers alone |
| `Middleware.ApplyNoindex` | lib/supabase/middleware.ts:79-91 | the robots header is set exactly on the private paths and `/api/`, and nothing else changes |
| `Middleware.Merged` | lib/supabase/middleware.ts:45-51 | the merged options are always `SameSite=None; Secure`, keeping the other options given |
| `Middleware.LastNamed` | lib/supabase/middleware.ts:44-53 | it finds the last entry of a name, and finds none exactly when no entry has that name |
| `Middleware.ResponseCookiesSecure` | lib/supabase/middleware.ts:44-53 | every refreshed response cookie is `SameSite=None; Secure`, with the value and other options of the last entry of its name |
| `Middleware.RequestCookiesSet` | lib/supabase/middleware.ts:46-48 | the request carries the last value set for each name and keeps its other cookies |
| `Middleware.SetAll` | lib/supabase/middleware.ts:44-53 | the cookies are set on the request first, then a fresh pass-through response is made from the updated request and gets the cookies with merged options |
| `Middleware.DebugPageHidden` | lib/supabase/middleware.ts:10-18 | the debug page is redirected home exactly in production or outside dev test mode |
| `Middleware.BypassWithoutAuth` | lib/supabase/middleware.ts:20-30 | dev test mode, or a missing Supabase configuration, lets every other request through unchecked |
| `Middleware.ProtectedNeedsUser` | lib/supabase/middleware.ts:58-70 | with auth configured, a request is sent to `/login` exactly when it is anonymous and under `/map` or `/profile`; the query string is kept |
| `Middleware.PrefixIsPlain` | lib/supabase/middleware.ts:62-64 | prefix matching is plain: `/mapping` is protected, and `/api` alone is not marked noindex |
| `Middleware.UpdateSession` | lib/supabase/middleware.ts:9-73 | the response follows the routing decision; a pass-through after a refresh carries the refreshed cookies, and noindex is applied to every pass-through |
| `MiddlewareRevue.ResponseCookiesAsGiven` | gpt_revue/lib/supabase/middleware.ts:34-42 | every refreshed response cookie is the last entry of its name, options and all |
| `MiddlewareRevue.CookieOptionsDiffer` | gpt_revue/lib/supabase/middleware.ts:39-41 | a cookie refreshed with `SameSite=Lax` keeps it here, whereas lib/supabase/middleware.ts forces `None` |
| `MiddlewareRevue.SetAll` | gpt_revue/lib/supabase/middleware.ts:34-42 | as in lib/supabase/middleware.ts, but the options are passed through unchanged |
| `MiddlewareRevue.AgreesBesideDebugPage` | gpt_revue/lib/supabase/middleware.ts:9-62 | on every path but the debug page, both middlewares route alike |
| `MiddlewareRevue.DebugPageServed` | gpt_revue/lib/supabase/middleware.ts:9-62 | gpt_revue/lib/supabase/middleware.ts never redirects the debug page, including in production |
| `MiddlewareRevue.BypassWithoutAuth` | gpt_revue/lib/supabase/middleware.ts:10-20 | dev test mode, or a missing configuration, passes every request through without a check |
| `MiddlewareRevue.UpdateSession` | gpt_revue/lib/supabase/middleware.ts:9-62 | the response follows the routing decision, and it carries the cookies as refreshed |
| `JoinButton.CheckedStatus` | features/parties/JoinVibeButton.tsx:33-39 | a member reads as member; otherwise the status changes only when the request is pending or rejected |
| `JoinButton.JoinResult` | features/parties/JoinVibeButton.tsx:50-80 | a throw from `fetch` or `res.json()`, or a `null` body read on the 409 or error branch, is a network error; the attempt fails exactly on such a throw or on a refusal other than 409; only failures carry a message |
| `JoinButton.JoinVibeButton.constructor` | features/parties/JoinVibeButton.tsx:15-17 | the button starts idle with no message |
| `JoinButton.JoinVibeButton.CheckStatus` | features/parties/JoinVibeButton.tsx:20-44 | only a signed-in guest asks; an OK reply sets the checked status; failures are silent and leave the message |
| `JoinButton.JoinVibeButton.BeginJoin` | features/parties/JoinVibeButton.tsx:46-56 | joining sets the button loading, clears the message, and sends the party id |
| `JoinButton.JoinVibeButton.CompleteJoin` | features/parties/JoinVibeButton.tsx:57-80 | the status becomes the result's status, and only a failure writes the message |
| `JoinButton.Join` | features/parties/JoinVibeButton.tsx:46-81 | a whole press leaves the result's status and message, having sent the party id |
| `JoinButton.FailureMessage` | features/parties/JoinVibeButton.tsx:63-79 | a failed join shows the server's error when it sent one and the generic one when it did not; a `null` body gives the network error on a 409 or a refusal, and pending on success |
| `JoinButton.ConflictsReadAsIntended` | features/parties/JoinVibeButton.tsx:63-67 | on the route's 409 answers, a member reads as member, a pending request as pending, and any other earlier request as rejected |
| `JoinButton.FiledReadsPending` | features/parties/JoinVibeButton.tsx:76 | a request the route files leaves the button at pending |
| `JoinButton.StatusCheckReadsMembership` | features/parties/JoinVibeButton.tsx:33-34 | on the route's GET answer, a member is shown as member whatever requests exist |
| `ReportButton.RequestBody` | features/security/ReportButton.tsx:35-38 | the body names the reported user and carries the trimmed reason unless it is blank; there is no target type |
| `ReportButton.SubmitResult` | features/security/ReportButton.tsx:41-54 | a report counts as sent exactly on 409 or on an OK JSON reply; a message is shown exactly when it is not sent; a throw, or an error reply whose body is not JSON or is `null`, gives the network error, and any other error reply the server's message or the generic one |
| `ReportButton.ReportDialog.constructor` | features/security/ReportButton.tsx:21-25 | the dialog starts with an empty reason, not loading, not done, with no message |
| `ReportButton.ReportDialog.SetReason` | features/security/ReportButton.tsx:86-93 | typing replaces the reason and leaves loading, done and the message as they were |
| `ReportButton.ReportDialog.BeginSubmit` | features/security/ReportButton.tsx:27-38 | submitting sets loading, clears the message, and sends the request body |
| `ReportButton.ReportDialog.CompleteSubmit` | features/security/ReportButton.tsx:41-57 | loading always ends; done is set when the result counts as sent; only a failure writes the message |
| `ReportButton.Submit` | features/security/ReportButton.tsx:27-58 | a whole submission leaves the result's message and done flag, having sent the body |
| `ReportButton.SentReportIsFiled` | features/security/ReportButton.tsx:35-38 | the route files what the button sends about someone else, as target type `"user"` with the trimmed reason cut at 500 units, or none when it is blank |
| `ReportButton.RouteAnswersRead` | features/security/ReportButton.tsx:41-52 | a filed or duplicate report reads as sent; any other refusal shows the route's message |
| `ProfileView.BadgeRanges` | features/profile/ProfileView.tsx:12-17 | the four badges cover the reputation scale in disjoint ranges: at least 50 trusted, 20-50 active, 5-20 neutral, below 5 low |
| `ProfileView.BadgeMonotone` | features/profile/ProfileView.tsx:12-17 | a higher reputation never gets a lower badge |
| `ProfileView.OrElse` | features/profile/ProfileView.tsx:50 | a non-empty value is shown, and otherwise the fallback |
| `ProfileView.Render` | features/profile/ProfileView.tsx:19-99 | a missing profile shows the not-found text and only then; a card shows the badge of its reputation, the verified mark and the id line |
| `ProfileView.RenderBlocks` | features/profile/ProfileView.tsx:59-85 | the bio block appears exactly for a non-empty bio, and the interests exactly for at least one tag, in stored order; the avatar image appears exactly when there is a non-empty avatar URL; the name is the username or its fallback |
| `VibeMap.MoodEmoji` | features/map/VibeMap.tsx:33-41 | a missing or empty mood gets ✨ |
| `VibeMap.MoodEmojiPriority` | features/map/VibeMap.tsx:33-41 | a mood gets the first group (party/bar, chill/coffee, walk/culture, game) whose word occurs in it, ignoring case, and ✨ when it mentions none |
| `VibeMap.MoodEmojiIgnoresCase` | features/map/VibeMap.tsx:35 | an already lower-cased mood gets the same emoji |
| `VibeMap.RepeatedEventStays` | features/map/VibeMap.tsx:156-165 | an event repeating the last search's position and zoom does not move the centre |
| `VibeMap.FirstEventMoves` | features/map/VibeMap.tsx:157-161 | before any search, any usable event moves the centre |
| `VibeMap.Param` | features/map/VibeMap.tsx:87-92 | a query parameter is found exactly when some entry has its name |
| `VibeMap.QueryParams` | features/map/VibeMap.tsx:87-92 | the query reads back `lat`, `lng` and `radius_m`, the last written as `String(15000)` and read as the digits "15000"; `my=true` appears only when asked for |
| `VibeMap.QueryReadByRoute` | features/map/VibeMap.tsx:87-92 | the nearby route reads the map's radius as 15000, inside its clamp, and its `my` flag as sent |
| `VibeMap.FetchedParties` | features/map/VibeMap.tsx:98-108 | an OK reply replaces the list with its array (or an empty one); a non-OK reply and an abort keep it; any other error clears it |
| `VibeMap.MapView.constructor` | features/map/VibeMap.tsx:61-71 | the map opens on Moscow at zoom 12, loading, with no parties and no search yet |
| `VibeMap.MapView.BoundsChange` | features/map/VibeMap.tsx:148-168 | an event without a getter or a two-element centre is ignored; otherwise the centre moves, with the zoom, exactly when it moved more than 300 m or the zoom changed |
| `VibeMap.MapView.Search` | features/map/VibeMap.tsx:130-133 | the search sends the centre's query, updates the list as `FetchedParties` says, ends loading and records the search position |
| `VibeMap.ShowsRouteList` | features/map/VibeMap.tsx:98-101 | the map shows a successful nearby call's parties, none for a result that is not a list, and keeps what it showed on a 401 |
| `JsString.LeadingCount` | gpt_revue/features/chat/PartyChat.tsx:336 | it counts exactly the leading whitespace |
| `JsString.TrailingCount` | gpt_revue/features/chat/PartyChat.tsx:336 | it counts exactly the trailing whitespace |
| `JsString.Trim` | gpt_revue/features/chat/PartyChat.tsx:336 | `trim` never lengthens a string |
| `JsString.TrimSpec` | gpt_revue/features/chat/PartyChat.tsx:336 | `trim` keeps a contiguous part of the string; everything cut off is whitespace, and a non-empty result starts and ends with non-whitespace |
| `JsString.TrimEmptyIff` | features/security/ReportButton.tsx:37 | a trimmed string is empty exactly when the input is all whitespace |
| `JsString.TrimIdempotent` | features/security/ReportButton.tsx:37 | trimming twice is trimming once |
| `JsString.Utf16Length` | gpt_revue/app/api/parties/create/route.ts:36 | `length` counts UTF-16 code units: between one and two per character |
| `JsString.Utf16LengthOfBmp` | app/api/parties/messages/route.ts:83 | within the Basic Multilingual Plane, the length is the number of characters |
| `JsString.Utf16Width` | gpt_revue/app/api/parties/create/route.ts:36 | a character takes one or two UTF-16 code units |
| `JsString.Utf16LengthCons` | gpt_revue/app/api/reports/route.ts:58 | the UTF-16 length can be counted from the front: the first character's width plus the rest's length |
| `JsString.IncludesIff` | features/map/VibeMap.tsx:36-39 | `includes` is true exactly when there is an occurrence |
| `JsString.Utf16Slice` | gpt_revue/app/api/reports/route.ts:58 | `slice(0, n)` is a prefix of the string |
| `JsString.Utf16SliceSpec` | gpt_revue/app/api/reports/route.ts:58 | the slice keeps at most `n` code units, all of the string when it fits, and stops short only before a two-unit character |
| `JsString.Utf16SliceOfBmp` | gpt_revue/app/api/reports/route.ts:58 | within the Basic Multilingual Plane, the slice is the first `n` characters |
| `JsString.LowerForMatchOfLower` | features/map/VibeMap.tsx:35 | lower-casing leaves text without capitals unchanged |
| `JsString.LowerForMatchAppend` | features/map/VibeMap.tsx:35 | lower-casing works character by character |
| `JsString.LowerForMatchIdempotent` | features/map/VibeMap.tsx:35 | lower-casing twice is lower-casing once |
| `JsString.LowerForMatchEmpty` | features/map/VibeMap.tsx:34-35 | only the empty string lower-cases to the empty string |
| `JsNumber.Min` | app/api/parties/messages/route.ts:188-191 | `Math.min` is NaN exactly when an argument is; otherwise it is the smaller argument |
| `JsNumber.Max` | _review/last_v2/parties_nearby_route.ts:42 | `Math.max` is NaN exactly when an argument is; otherwise it is the larger argument |
| `JsNumber.Round` | _review/last_v2/parties_nearby_route.ts:18-19 | a parsed value at or above the double overflow threshold becomes an infinity; otherwise it keeps its value and sign |
| `JsNumber.IndexOf` | app/api/parties/messages/route.ts:189 | it finds the first occurrence, or reports none |
| `JsNumber.ParseMantissa` | app/api/parties/messages/route.ts:189 | a parsed mantissa is non-negative |
| `JsNumber.ParseUnsignedDecimal` | app/api/parties/messages/route.ts:189 | a parsed unsigned literal is non-negative |
| `JsNumber.DigitRun` | _review/last_v2/parties_nearby_route.ts:18 | it finds the end of the run of digits |
| `JsNumber.DecimalPrefix` | _review/last_v2/parties_nearby_route.ts:18 | the decimal prefix read by `parseFloat` is non-negative |
| `JsNumber.ParseFloatOfDigitStart` | _review/last_v2/parties_nearby_route.ts:18 | `parseFloat` of text starting with a digit reads its decimal prefix, unsigned |
| `JsNumber.RoundOfNat` | _review/last_v2/parties_nearby_route.ts:18-19 | a natural number below the overflow threshold is read as itself |
| `JsNumber.ParseFloatOfDigits` | _review/last_v2/parties_nearby_route.ts:18 | `parseFloat` of a plain number gives that number |
| `JsNumber.ParseFloatOfDigitsThenText` | _review/last_v2/parties_nearby_route.ts:18 | `parseFloat` stops at the first character that cannot continue a number |
| `JsNumber.DecimalPrefixOfDigitsThenText` | _review/last_v2/parties_nearby_route.ts:18 | the decimal prefix of digits followed by other text is the digits' value |
| `JsNumber.NatToString` | features/map/VibeMap.tsx:90 | the decimal form of a natural number is a non-empty digit string |
| `JsNumber.DigitsOfNatToString` | features/map/VibeMap.tsx:90 | reading back the digits of a natural number gives the number |
| `JsNumber.IntegerToString` | features/map/VibeMap.tsx:90 | every natural number below 10^21, zero and multiples of ten included, prints as its plain decimal digits, so `String(RADIUS_M)` is "15000" |
| `JsNumber.TrimOfDigits` | app/api/parties/messages/route.ts:189 | a digit string is its own trim |
| `JsNumber.ParseOfDigits` | app/api/parties/messages/route.ts:189 | a digit string is read as a decimal integer, not as a prefixed literal |
| `JsNumber.StringToNumberOfDigits` | app/api/parties/messages/route.ts:189 | `Number` of a plain digit string is its value |
| `Json.ErrorResponse` | app/api/parties/messages/route.ts:19 | an error response has the given status, and its `error` field is the message |
| `Json.ErrorText` | features/parties/JoinVibeButton.tsx:72 | `data.error \|\| fallback` throws exactly when the body is not JSON or is `null`; otherwise it shows a non-empty string error as it is, and the fallback for a falsy one |
| `Json.ObjectOf` | features/security/ReportButton.tsx:35-38 | an object literal builds an object |
| `Json.GetObjectOf` | features/security/ReportButton.tsx:35-38 | reading a property of an object literal gives the value last written for it, or `undefined` (left out by `JSON.stringify`) |
| `Json.LastValueOfDistinct` | gpt_revue/features/chat/PartyChat.tsx:352-358 | in a literal with distinct names, each property reads back as written |
| `Json.LastValueOfAbsent` | gpt_revue/features/chat/PartyChat.tsx:352-358 | a name no property has reads as `undefined` |

## Left out

- `MessagesRoute.PageQuery`: the database itself is abstract. How it reads a cursor as a timestamp, its error for a cursor it cannot read, and its error for a row count that is not a whole non-negative number are inputs of the GET. Rows with equal timestamps may come in any order the table holds them.
- `MessagesRoute.Page`, `MessagesRoute.MatchingNewestFirst`: `.order("created_at", { ascending: false })` is not modelled as a sort. The model assumes instead that the table is stored in `created_at` order (`InCreationOrder`) and reads it backwards, so "newest first" is proved only under that assumption. A short page holds every matching row whatever the order.
- `ReportButton.ReportDialog.SetReason`: the textarea's `maxLength={500}` is a browser limit on typing, so `SetReason` accepts any text. The route cuts the stored reason at 500 units anyway.
- Cryptography is symbolic. Key pairs come from a seed. A shared secret is the unordered pair of seeds, and sealing succeeds only under the secret the key was sealed with. AES-GCM sealing and opening are function parameters. The WebCrypto calls and `generateDeviceKeyPair` (lib/crypto/keys.ts:15-17) have no bit-level model. `lib/crypto/room-key.ts` is not part of this model; its sealing, unsealing, export and import are modelled only through what the chat relies on.
- The public and private key export and import of lib/crypto/keys.ts:20-44 are foreign calls. Only their base64 layer is modelled.
- The mechanics of IndexedDB are not modelled: versions, transactions and the asynchronous request callbacks. The store is a map of object stores, and an open or request error is not modelled.
- Supabase is a snapshot of what each query returns. For the chat setup it is a remote store whose concurrent writers act through an environment schedule. Row-level security, the SQL functions (`allow_action`, `create_party`, `get_nearby_parties`, `ensure_party_room_key`) and network failures inside a handler (other than as a returned error) are not modelled.
- Timers are left out: the ten-second rate-limit unlock is a separate operation, and the 300 ms centre-change notification is not modelled. So are the React scheduler, effect dependencies, the `cancelled` flag of the setup, the `AbortController` (an abort is one outcome of a search), auto-scrolling and focus.
- `VibeMap.MapView.BoundsChange`: `approxDistanceM` is floating-point geometry, so it is a parameter. The haversine distance of the dev nearby route is a parameter too.
- Numbers are exact decimals. IEEE-754 rounding is modelled only as overflow to infinity. `Number::toString` is given for the cases the model uses, without the shortest-round-trip digit search.
- `VibeMap.Query`: it has no contract of its own. `String(lat)` and `String(lng)` are written through `NumberToString` and are not parsed back.
- `ProfileView.BadgeOf`: a NaN reputation is not modelled, because the profile's reputation is a real number.
- The Telegram login, the dev-mock auth route and the session cookie format are outside the core. So is the geolocation effect, where the browser position is a new centre given to `Search`.
- UI markup is not modelled. That includes animation, icons, the open state of the report dialog and how the chat list is drawn. A view is only the data it shows.
- The `party_members` query error of the chat's fan-out is not modelled: `members` is always a list.
- `JsString.Utf16Slice` never splits a two-unit character. `String.prototype.slice` can keep a lone high surrogate, which has no `char` in Dafny.
- `Middleware.UpdateSession`: a redirect after a refresh drops the refreshed cookies, as the code does. The model keeps this behaviour.
- Wire decoding of requests (`request.json()` throwing on malformed JSON) is an `Err` body. Its message is not modelled beyond the 500 answer.
