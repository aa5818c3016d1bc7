/**
 * `/api/parties/messages`: POST stores an end-to-end encrypted message after a
 * fixed-order chain of checks, GET lists a page of a party's messages.  Each handler
 * is a function of the request and of a snapshot of what its queries return.
 */
module MessagesRoute {
  import opened Wrappers
  import opened Base64
  import opened Json
  import JsNumber
  import JsString

  const MaxCiphertextLength: nat := 8192
  const MinNonceLength: nat := 12
  const MaxNonceLength: nat := 32

  const Unauthorized: string := "Unauthorized"
  const RateLimitUnavailable: string := "rate_limit_unavailable"
  const TooManyMessages: string := "Too many messages. Wait a few seconds."
  const InvalidBody: string := "Invalid body"
  const PartyIdRequired: string := "party_id is required"
  const PlaintextRejected: string := "Plaintext content field is not accepted. Use ciphertext."
  const CiphertextRequired: string := "ciphertext is required (base64)"
  const CiphertextTooLong: string := "ciphertext must be at most 8192 characters"
  const NonceRequired: string := "nonce is required (base64)"
  const NonceLength: string := "nonce must be 12-32 characters (base64 of 12-byte IV)"
  const VersionMustBeOne: string := "e2e_version must be 1"
  const CiphertextNotBase64: string := "ciphertext must be valid base64"
  const NonceNotBase64: string := "nonce must be valid base64"
  const NotAMember: string := "Not a member of this party"

  /** What the rate-limit RPC `allow_action` answered: an error, or its data. */
  datatype RateCheck = LimiterDown | Verdict(allowed: Json)

  /** The query results and environment a POST sees. */
  datatype PostEnv = PostEnv(
    user: Option<string>,            // the authenticated user's id
    rate: RateCheck,
    isProduction: bool,              // `NODE_ENV === "production"`
    body: Result<Json, string>,      // `request.json()`, or the message of the exception it throws
    isMember: bool,                  // a `party_members` row for the party and the user
    insert: Result<Json, string>)    // the inserted row as selected back, or the insert error's message

  /** The row the POST inserts into `messages`. */
  datatype MessageRow = MessageRow(partyId: string, userId: string, ciphertext: string, nonce: string,
                                   e2eVersion: int, senderDeviceId: Option<string>)

  /** The fields of a body that passed validation. */
  datatype ValidMessage = ValidMessage(partyId: string, ciphertext: string, nonce: string,
                                       senderDeviceId: Option<string>)

  /** `/^[A-Za-z0-9+/=]+$/.test(s)`. */
  predicate IsBase64Text(s: string) {
    |s| > 0 && forall k :: 0 <= k < |s| ==> IsAlphabetChar(s[k]) || s[k] == '='
  }

  /** `e2eVersion !== 1` is false: the number one, however it was written. */
  predicate IsVersionOne(v: Option<Json>) {
    AsNumber(v).Some? && JsNumber.Value(AsNumber(v).value) == 1.0
  }

  predicate PartyIdOk(b: Json) {
    AsString(Get(b, "party_id")).Some? && AsString(Get(b, "party_id")).value != ""
  }

  predicate CiphertextPresent(b: Json) {
    AsString(Get(b, "ciphertext")).Some? && AsString(Get(b, "ciphertext")).value != ""
  }

  predicate NoncePresent(b: Json) {
    AsString(Get(b, "nonce")).Some? && AsString(Get(b, "nonce")).value != ""
  }

  /** The validation chain of the POST body, lines 51-125 of the handler. */
  function ValidatePost(b: Json): (r: Result<ValidMessage, string>)
    ensures r.Ok? ==> IsObject(b) && !Has(b, "content")
  {
    if !IsObject(b) then Err(InvalidBody)
    else if !PartyIdOk(b) then Err(PartyIdRequired)
    else if Has(b, "content") then Err(PlaintextRejected)
    else if !CiphertextPresent(b) then Err(CiphertextRequired)
    else
      var ciphertext := AsString(Get(b, "ciphertext")).value;
      if JsString.Utf16Length(ciphertext) > MaxCiphertextLength then Err(CiphertextTooLong)
      else if !NoncePresent(b) then Err(NonceRequired)
      else
        var nonce := AsString(Get(b, "nonce")).value;
        var nonceLength := JsString.Utf16Length(nonce);
        if nonceLength < MinNonceLength || nonceLength > MaxNonceLength then Err(NonceLength)
        else if !IsVersionOne(Get(b, "e2e_version")) then Err(VersionMustBeOne)
        else if !IsBase64Text(ciphertext) then Err(CiphertextNotBase64)
        else if !IsBase64Text(nonce) then Err(NonceNotBase64)
        else Ok(ValidMessage(AsString(Get(b, "party_id")).value, ciphertext, nonce,
                             AsString(Get(b, "sender_device_id"))))
  }

  /** A body passes exactly when it meets every requirement of the chain. */
  lemma ValidatePostOkIff(b: Json)
    ensures ValidatePost(b).Ok? <==>
      IsObject(b) && PartyIdOk(b) && !Has(b, "content") && CiphertextPresent(b) && NoncePresent(b) &&
      JsString.Utf16Length(AsString(Get(b, "ciphertext")).value) <= MaxCiphertextLength &&
      MinNonceLength <= JsString.Utf16Length(AsString(Get(b, "nonce")).value) <= MaxNonceLength &&
      IsVersionOne(Get(b, "e2e_version")) &&
      IsBase64Text(AsString(Get(b, "ciphertext")).value) && IsBase64Text(AsString(Get(b, "nonce")).value)
    ensures ValidatePost(b).Ok? ==>
      ValidatePost(b).value == ValidMessage(AsString(Get(b, "party_id")).value,
                                            AsString(Get(b, "ciphertext")).value,
                                            AsString(Get(b, "nonce")).value,
                                            AsString(Get(b, "sender_device_id")))
  {
  }

  /** A body carrying a `content` field is refused whatever else it holds, once it names a party. */
  lemma ContentAlwaysRejected(b: Json)
    requires IsObject(b) && PartyIdOk(b) && Has(b, "content")
    ensures ValidatePost(b) == Err(PlaintextRejected)
  {
  }

  /** What a POST returns, and the row it asks the database to insert, if any (the insert may still fail). */
  datatype PostOutcome = PostOutcome(response: Response, attempted: Option<MessageRow>)

  /** The POST handler. */
  function Post(env: PostEnv): (r: PostOutcome)
    ensures r.attempted.Some? ==> r.response.status == 200 || r.response.status == 500
  {
    if env.user.None? then PostOutcome(ErrorResponse(401, Unauthorized), None)
    else if env.rate.LimiterDown? && env.isProduction then PostOutcome(ErrorResponse(503, RateLimitUnavailable), None)
    else if env.rate.Verdict? && env.rate.allowed == JBool(false) then
      PostOutcome(ErrorResponse(429, TooManyMessages), None)
    else if env.body.Err? then PostOutcome(ErrorResponse(500, env.body.error), None)
    else
      var v := ValidatePost(env.body.value);
      if v.Err? then PostOutcome(ErrorResponse(400, v.error), None)
      else if !env.isMember then PostOutcome(ErrorResponse(403, NotAMember), None)
      else
        var row := MessageRow(v.value.partyId, env.user.value, v.value.ciphertext, v.value.nonce, 1,
                              v.value.senderDeviceId);
        match env.insert
        case Err(message) => PostOutcome(ErrorResponse(500, message), Some(row))
        case Ok(msg) => PostOutcome(Success(msg), Some(row))
  }

  /** Without a session nothing else is looked at: 401 and no insert. */
  lemma PostUnauthenticated(env: PostEnv)
    requires env.user.None?
    ensures Post(env) == PostOutcome(ErrorResponse(401, Unauthorized), None)
  {
  }

  /**
   * The rate limiter: a refusal gives 429; a limiter error gives 503 in production and
   * is ignored elsewhere, the request going on as if it had been allowed.
   */
  lemma PostRateLimit(env: PostEnv)
    requires env.user.Some?
    ensures env.rate == Verdict(JBool(false)) ==> Post(env).response == ErrorResponse(429, TooManyMessages)
    ensures env.rate.LimiterDown? && env.isProduction ==> Post(env).response == ErrorResponse(503, RateLimitUnavailable)
    ensures env.rate.LimiterDown? && !env.isProduction ==>
      Post(env) == Post(env.(rate := Verdict(JBool(true))))
  {
  }

  /**
   * The insert is issued only for an authenticated member, within the rate limit, and
   * with a valid body; it belongs to the authenticated user, has version 1 and the
   * sender device id only when that was a string.
   */
  lemma PostInsertShape(env: PostEnv)
    ensures Post(env).attempted.Some? <==>
      env.user.Some? && !(env.rate.LimiterDown? && env.isProduction) && env.rate != Verdict(JBool(false)) &&
      env.body.Ok? && ValidatePost(env.body.value).Ok? && env.isMember
    ensures Post(env).attempted.Some? ==>
      var row := Post(env).attempted.value;
      var b := env.body.value;
      row.userId == env.user.value && row.e2eVersion == 1 &&
      row.partyId == AsString(Get(b, "party_id")).value &&
      row.ciphertext == AsString(Get(b, "ciphertext")).value && row.nonce == AsString(Get(b, "nonce")).value &&
      row.senderDeviceId == AsString(Get(b, "sender_device_id"))
    ensures Post(env).attempted.Some? && env.insert.Ok? ==> Post(env).response == Success(env.insert.value)
    ensures (env.user.Some? && !(env.rate.LimiterDown? && env.isProduction) && env.rate != Verdict(JBool(false)) &&
             env.body.Ok? && ValidatePost(env.body.value).Ok? && !env.isMember) ==>
      Post(env).response == ErrorResponse(403, NotAMember)
  {
    if Post(env).attempted.Some? {
      ValidatePostOkIff(env.body.value);
    }
  }

  // ---- GET ----

  const DefaultLimit: string := "50"
  const MaxLimit: int := 100

  /** `Math.min(Number(searchParams.get("limit") || "50"), 100)`. */
  function PageLimit(param: Option<string>): (r: JsNumber.Number)
    ensures !r.NaN? ==> JsNumber.LessOrEqual(r, JsNumber.FromInt(MaxLimit))
  {
    var text := if param.Some? && param.value != "" then param.value else DefaultLimit;
    JsNumber.Min(JsNumber.StringToNumber(text), JsNumber.FromInt(MaxLimit))
  }

  /** `Math.min(x, 100)` of a whole number is the smaller of the two. */
  lemma MinOfInts(n: nat)
    ensures JsNumber.Min(JsNumber.FromInt(n), JsNumber.FromInt(MaxLimit)) ==
      JsNumber.FromInt(if n < MaxLimit then n else MaxLimit)
  {
    JsNumber.ValueOfInt(n);
    JsNumber.ValueOfInt(MaxLimit);
  }

  /** A plain number above 100 gives 100, below it gives itself. */
  lemma PageLimitOfDigits(n: nat)
    requires n < JsNumber.OverflowThreshold
    ensures PageLimit(Some(JsNumber.NatToString(n))) == JsNumber.FromInt(if n < MaxLimit then n else MaxLimit)
  {
    JsNumber.StringToNumberOfDigits(n);
    MinOfInts(n);
  }

  /** An absent or empty `limit` gives 50. */
  lemma PageLimitDefault()
    ensures PageLimit(None) == JsNumber.FromInt(50) && PageLimit(Some("")) == JsNumber.FromInt(50)
  {
    assert JsNumber.NatToString(50) == DefaultLimit;
    PageLimitOfDigits(50);
  }

  /** `has_more: (data?.length ?? 0) === limit`. */
  predicate HasMore(count: nat, limit: JsNumber.Number) {
    JsNumber.StrictEquals(JsNumber.FromInt(count), limit)
  }

  /** For a whole-number limit, more pages are announced exactly when the page is full. */
  lemma HasMoreIff(count: nat, n: nat)
    ensures HasMore(count, JsNumber.FromInt(n)) <==> count == n
  {
    JsNumber.ValueOfInt(count);
    JsNumber.ValueOfInt(n);
  }

  /** A stored message as far as the page query reads it; `createdAt` is the timestamp. */
  datatype StoredMessage = StoredMessage(partyId: string, createdAt: int, row: Json)

  /** The table lists its rows in the order they were created. */
  predicate InCreationOrder(table: seq<StoredMessage>) {
    forall i, j :: 0 <= i < j < |table| ==> table[i].createdAt <= table[j].createdAt
  }

  /** `.order("created_at", { ascending: false })`: no row is newer than one before it. */
  predicate NewestFirst(s: seq<StoredMessage>) {
    forall i, j :: 0 <= i < j < |s| ==> s[i].createdAt >= s[j].createdAt
  }

  /** The rows the filters keep: this party's, and older than the cursor when one applies. */
  predicate Selected(m: StoredMessage, partyId: string, cursor: Option<int>) {
    m.partyId == partyId && (cursor.Some? ==> m.createdAt < cursor.value)
  }

  /** Rows of the party, before the cursor when there is one, newest first. */
  function Matching(table: seq<StoredMessage>, partyId: string, cursor: Option<int>): (r: seq<StoredMessage>)
    ensures forall m :: m in r <==> m in table && Selected(m, partyId, cursor)
  {
    if table == [] then []
    else
      var rest := Matching(table[1..], partyId, cursor);
      var m := table[0];
      if Selected(m, partyId, cursor) then rest + [m] else rest
  }

  /** Over a table in creation order, the matching rows come newest first. */
  lemma {:induction false} MatchingNewestFirst(table: seq<StoredMessage>, partyId: string, cursor: Option<int>)
    requires InCreationOrder(table)
    ensures NewestFirst(Matching(table, partyId, cursor))
  {
    if table != [] {
      var rest := Matching(table[1..], partyId, cursor);
      assert InCreationOrder(table[1..]) by {
        forall i, j | 0 <= i < j < |table[1..]| ensures table[1..][i].createdAt <= table[1..][j].createdAt {
          assert table[1..][i] == table[i + 1] && table[1..][j] == table[j + 1];
        }
      }
      MatchingNewestFirst(table[1..], partyId, cursor);
      if Selected(table[0], partyId, cursor) {
        var s := rest + [table[0]];
        forall i, j | 0 <= i < j < |s| ensures s[i].createdAt >= s[j].createdAt {
          if j == |rest| {
            assert s[i] in table[1..];
            var k :| 0 <= k < |table[1..]| && table[1..][k] == s[i];
            assert table[k + 1] == s[i];
          }
        }
      }
    }
  }

  /**
   * The page query (`.eq("party_id").order("created_at", desc).limit(n)` and
   * `.lt("created_at", cursor)` when a cursor applies).  Over a table kept in
   * creation order the page is the `n` newest matching rows, newest first: it is
   * full unless it holds every matching row, and no matching row left out is newer
   * than the last one kept.
   */
  function Page(table: seq<StoredMessage>, partyId: string, cursor: Option<int>, n: nat): (r: seq<StoredMessage>)
    ensures |r| <= n
    ensures forall m :: m in r ==> m in table && Selected(m, partyId, cursor)
    ensures |r| < n ==> forall m :: m in table && Selected(m, partyId, cursor) ==> m in r
    ensures InCreationOrder(table) ==> NewestFirst(r)
    ensures InCreationOrder(table) ==>
      forall m :: m in table && Selected(m, partyId, cursor) && m !in r ==>
        |r| == n && forall k :: 0 <= k < n ==> m.createdAt <= r[k].createdAt
  {
    var all := Matching(table, partyId, cursor);
    if InCreationOrder(table) then
      MatchingNewestFirst(table, partyId, cursor);
      TakeKeepsNewest(all, n);
      Take(all, n)
    else Take(all, n)
  }

  /** The first `n` rows, or all of them when there are fewer. */
  function Take(all: seq<StoredMessage>, n: nat): (r: seq<StoredMessage>)
    ensures |r| <= n && |r| <= |all| && r == all[..|r|] && (|r| < n ==> r == all)
  {
    if |all| <= n then all else all[..n]
  }

  /** A prefix of a newest-first list is the newest part of it. */
  lemma TakeKeepsNewest(all: seq<StoredMessage>, n: nat)
    requires NewestFirst(all)
    ensures NewestFirst(Take(all, n))
    ensures forall m :: m in all && m !in Take(all, n) ==>
      |Take(all, n)| == n && forall k :: 0 <= k < n ==> m.createdAt <= Take(all, n)[k].createdAt
  {
    var r := Take(all, n);
    forall m | m in all && m !in r
      ensures |r| == n && forall k :: 0 <= k < n ==> m.createdAt <= r[k].createdAt
    {
      var i :| 0 <= i < |all| && all[i] == m;
      assert r != all;
      forall k | 0 <= k < n ensures m.createdAt <= r[k].createdAt {
        assert r[k] == all[k];
      }
    }
  }

  /** A page that is not full holds every matching row: `has_more == false` means nothing was left out. */
  lemma ShortPageIsComplete(table: seq<StoredMessage>, partyId: string, cursor: Option<int>, n: nat)
    requires |Page(table, partyId, cursor, n)| < n
    ensures forall m :: m in table && Selected(m, partyId, cursor) ==> m in Page(table, partyId, cursor, n)
  {
  }

  /** The row count `.limit(limit)` asks for: only a whole, non-negative number is one. */
  function PageSize(limit: JsNumber.Number): (r: Option<nat>)
    ensures r.Some? <==> limit.Finite? && 0.0 <= JsNumber.Value(limit.d) && JsNumber.Value(limit.d).Floor as real == JsNumber.Value(limit.d)
    ensures r.Some? ==> JsNumber.StrictEquals(JsNumber.FromInt(r.value), limit)
  {
    if limit.Finite? && 0.0 <= JsNumber.Value(limit.d) && JsNumber.Value(limit.d).Floor as real == JsNumber.Value(limit.d) then
      JsNumber.ValueOfInt(JsNumber.Value(limit.d).Floor);
      Some(JsNumber.Value(limit.d).Floor as nat)
    else None
  }

  /** `if (cursor)`: an empty cursor applies no filter; any other is read as a timestamp by the database. */
  function CursorFilter(cursor: Option<string>, cursorTime: Result<int, string>): (r: Result<Option<int>, string>)
    ensures cursor.None? || cursor.value == "" ==> r == Ok(None)
    ensures cursor.Some? && cursor.value != "" ==>
      r == (if cursorTime.Ok? then Ok(Some(cursorTime.value)) else Err(cursorTime.error))
  {
    if cursor.None? || cursor.value == "" then Ok(None)
    else if cursorTime.Ok? then Ok(Some(cursorTime.value))
    else Err(cursorTime.error)
  }

  /** The query results and environment a GET sees. */
  datatype GetEnv = GetEnv(
    user: Option<string>,
    partyId: Option<string>,          // `searchParams.get("party_id")`
    cursor: Option<string>,           // `searchParams.get("cursor")`
    limit: Option<string>,            // `searchParams.get("limit")`
    isMember: bool,
    table: seq<StoredMessage>,        // the messages table
    cursorTime: Result<int, string>,  // the cursor read as a timestamp, or the database's error for it
    limitRefusal: string,             // the database's error for a row count it cannot use
    failure: Option<string>)          // any other failure of the page query, by its message

  /** The page query's result: the rows, or the error message it reports. */
  function PageQuery(env: GetEnv): (r: Result<seq<StoredMessage>, string>)
    requires env.partyId.Some?
    ensures r.Ok? <==>
      env.failure.None? && PageSize(PageLimit(env.limit)).Some? && CursorFilter(env.cursor, env.cursorTime).Ok?
    ensures r.Ok? ==> r.value == Page(env.table, env.partyId.value, CursorFilter(env.cursor, env.cursorTime).value,
                                      PageSize(PageLimit(env.limit)).value)
  {
    var size := PageSize(PageLimit(env.limit));
    var filter := CursorFilter(env.cursor, env.cursorTime);
    if env.failure.Some? then Err(env.failure.value)
    else if size.None? then Err(env.limitRefusal)
    else if filter.Err? then Err(filter.error)
    else Ok(Page(env.table, env.partyId.value, filter.value, size.value))
  }

  /** The rows as the response lists them. */
  function RowsJson(rows: seq<StoredMessage>): (r: seq<Json>)
    ensures |r| == |rows| && forall i :: 0 <= i < |rows| ==> r[i] == rows[i].row
  {
    seq(|rows|, i requires 0 <= i < |rows| => rows[i].row)
  }

  /** The GET handler. */
  function List(env: GetEnv): (r: Response)
    ensures env.user.None? ==> r == ErrorResponse(401, Unauthorized)
    ensures env.user.Some? && (env.partyId.None? || env.partyId.value == "") ==> r == ErrorResponse(400, PartyIdRequired)
    ensures env.user.Some? && env.partyId.Some? && env.partyId.value != "" && !env.isMember ==>
      r == ErrorResponse(403, NotAMember)
    ensures env.user.Some? && env.partyId.Some? && env.partyId.value != "" && env.isMember && PageQuery(env).Err? ==>
      r == ErrorResponse(500, PageQuery(env).error)
  {
    if env.user.None? then ErrorResponse(401, Unauthorized)
    else if env.partyId.None? || env.partyId.value == "" then ErrorResponse(400, PartyIdRequired)
    else if !env.isMember then ErrorResponse(403, NotAMember)
    else match PageQuery(env)
      case Err(message) => ErrorResponse(500, message)
      case Ok(rows) =>
        Success(JObject(map["messages" := JArray(RowsJson(rows)),
                            "has_more" := JBool(HasMore(|rows|, PageLimit(env.limit)))]))
  }

  /**
   * A member's successful GET lists the page of the `n` newest matching rows for the
   * limit asked (50 by default), and announces more exactly when that page is full.
   */
  lemma GetListsPage(env: GetEnv, n: nat)
    requires env.user.Some? && env.partyId.Some? && env.partyId.value != "" && env.isMember
    requires env.failure.None? && CursorFilter(env.cursor, env.cursorTime).Ok?
    requires PageLimit(env.limit) == JsNumber.FromInt(n)
    ensures var page := Page(env.table, env.partyId.value, CursorFilter(env.cursor, env.cursorTime).value, n);
      List(env) == Success(JObject(map["messages" := JArray(RowsJson(page)), "has_more" := JBool(|page| == n)]))
  {
    JsNumber.ValueOfInt(n);
    assert PageSize(JsNumber.FromInt(n)) == Some(n);
    var page := Page(env.table, env.partyId.value, CursorFilter(env.cursor, env.cursorTime).value, n);
    HasMoreIff(|page|, n);
  }

  /** Without a `limit` the page size is 50; a cursor that is absent or empty filters nothing. */
  lemma GetDefaultPage(env: GetEnv)
    requires env.user.Some? && env.partyId.Some? && env.partyId.value != "" && env.isMember
    requires env.failure.None? && (env.cursor.None? || env.cursor.value == "") && env.limit.None?
    ensures var page := Page(env.table, env.partyId.value, None, 50);
      List(env) == Success(JObject(map["messages" := JArray(RowsJson(page)), "has_more" := JBool(|page| == 50)]))
  {
    PageLimitDefault();
    GetListsPage(env, 50);
  }
}
