/**
 * `POST /api/profile/sync`: the Telegram user in the body is read leniently and the
 * caller's profile gets a username derived from the Telegram handle (or the
 * Telegram id) and the Telegram photo as avatar.
 */
module ProfileSync {
  import opened Wrappers
  import opened Json
  import JsNumber
  import JsString

  const Unauthorized: string := "Unauthorized"
  const TelegramUserRequired: string := "telegramUser is required"

  datatype TelegramUser = TelegramUser(id: JsNumber.Decimal, firstName: string, lastName: Option<string>,
                                       username: Option<string>, languageCode: Option<string>,
                                       isPremium: bool, photoUrl: Option<string>)

  /** `v != null ? String(v) : undefined`. */
  function OptionalText(v: Option<Json>): (r: Option<string>)
    ensures r.None? <==> IsNullish(v)
    ensures AsString(v).Some? ==> r == AsString(v)
  {
    if IsNullish(v) then None else Some(ToJsString(v.value))
  }

  /** `parseTelegramUser`. */
  function ParseTelegramUser(body: Json): (r: Option<TelegramUser>)
    ensures r.Some? <==>
      IsObject(body) && Get(body, "telegramUser").Some? && IsObject(Get(body, "telegramUser").value) &&
      AsNumber(Get(Get(body, "telegramUser").value, "id")).Some?
  {
    if !IsObject(body) then None
    else
      var user := Get(body, "telegramUser");
      if user.None? || !IsObject(user.value) then None
      else
        var u := user.value;
        var id := AsNumber(Get(u, "id"));
        if id.None? then None
        else Some(TelegramUser(id.value, OptionalText(Get(u, "first_name")).GetOr(""),
                               OptionalText(Get(u, "last_name")), OptionalText(Get(u, "username")),
                               OptionalText(Get(u, "language_code")), Get(u, "is_premium") == Some(JBool(true)),
                               OptionalText(Get(u, "photo_url"))))
  }

  /** The fields of a parsed user: a missing first name is empty, and only `true` itself makes a premium user. */
  lemma ParsedFields(body: Json)
    requires ParseTelegramUser(body).Some?
    ensures var u := Get(body, "telegramUser").value;
      var t := ParseTelegramUser(body).value;
      Get(u, "id") == Some(JNumber(t.id)) &&
      (IsNullish(Get(u, "first_name")) ==> t.firstName == "") &&
      (AsString(Get(u, "first_name")).Some? ==> t.firstName == AsString(Get(u, "first_name")).value) &&
      (t.isPremium <==> Get(u, "is_premium") == Some(JBool(true))) &&
      (t.username.None? <==> IsNullish(Get(u, "username"))) &&
      (t.photoUrl.None? <==> IsNullish(Get(u, "photo_url")))
  {
  }

  /** `s.replace(/^@/, "")`: one leading `@` is removed. */
  function StripAt(s: string): (r: string)
    ensures s != [] && s[0] == '@' ==> r == s[1..]
    ensures (s == [] || s[0] != '@') ==> r == s
  {
    if s != [] && s[0] == '@' then s[1..] else s
  }

  /** The profile username: `@handle` for a non-empty handle, `tg_<id>` otherwise. */
  function ProfileUsername(t: TelegramUser): (r: string)
    ensures r != [] && (r[0] == '@' || JsString.StartsWith(r, "tg_"))
  {
    if t.username.Some? && t.username.value != "" then "@" + StripAt(t.username.value)
    else "tg_" + JsNumber.NumberToString(JsNumber.Finite(t.id))
  }

  /** A handle gives the same username with or without its `@`. */
  lemma UsernameIgnoresAt(t: TelegramUser, handle: string)
    requires handle != [] && handle[0] != '@'
    ensures ProfileUsername(t.(username := Some(handle))) == "@" + handle
    ensures ProfileUsername(t.(username := Some("@" + handle))) == "@" + handle
  {
    assert ("@" + handle)[1..] == handle;
  }

  /** Only one `@` is stripped. */
  lemma UsernameKeepsSecondAt(t: TelegramUser, handle: string)
    ensures ProfileUsername(t.(username := Some("@@" + handle))) == "@@" + handle
  {
    assert ("@@" + handle)[1..] == "@" + handle;
  }

  /** Syncing again with the stored username as the handle changes nothing. */
  lemma UsernameIdempotent(t: TelegramUser)
    requires t.username.Some? && t.username.value != ""
    ensures ProfileUsername(t.(username := Some(ProfileUsername(t)))) == ProfileUsername(t)
  {
    var h := ProfileUsername(t);
    assert h[1..] == StripAt(t.username.value);
  }

  /** The columns the sync writes. */
  datatype ProfileUpdate = ProfileUpdate(userId: string, username: string, avatarUrl: Option<string>,
                                         lastActiveAt: string)

  datatype SyncEnv = SyncEnv(
    user: Option<string>,
    body: Result<Json, string>,      // `request.json()`, or the message of what it throws
    now: string,                     // `new Date().toISOString()`
    updateError: Option<string>)     // the update's error message, if it failed

  datatype SyncOutcome = SyncOutcome(response: Response, written: Option<ProfileUpdate>)

  /** The POST handler. */
  function Post(env: SyncEnv): (r: SyncOutcome)
    ensures env.user.None? ==> r == SyncOutcome(ErrorResponse(401, Unauthorized), None)
    ensures env.user.Some? && env.body.Ok? && ParseTelegramUser(env.body.value).None? ==>
      r == SyncOutcome(ErrorResponse(400, TelegramUserRequired), None)
  {
    if env.user.None? then SyncOutcome(ErrorResponse(401, Unauthorized), None)
    else if env.body.Err? then SyncOutcome(ErrorResponse(500, env.body.error), None)
    else
      var t := ParseTelegramUser(env.body.value);
      if t.None? then SyncOutcome(ErrorResponse(400, TelegramUserRequired), None)
      else
        var update := ProfileUpdate(env.user.value, ProfileUsername(t.value), t.value.photoUrl, env.now);
        if env.updateError.Some? then SyncOutcome(ErrorResponse(500, env.updateError.value), Some(update))
        else SyncOutcome(Success(JObject(map["ok" := JBool(true)])), Some(update))
  }

  /** An update goes to the caller's own profile, with the Telegram photo (or null) as avatar. */
  lemma PostWritesOwnProfile(env: SyncEnv)
    requires Post(env).written.Some?
    ensures env.user.Some? && env.body.Ok? && ParseTelegramUser(env.body.value).Some?
    ensures var w := Post(env).written.value;
      var t := ParseTelegramUser(env.body.value).value;
      w.userId == env.user.value && w.username == ProfileUsername(t) && w.avatarUrl == t.photoUrl &&
      w.lastActiveAt == env.now
  {
  }
}
