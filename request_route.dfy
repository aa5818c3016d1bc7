/**
 * `/api/parties/request`: POST files a request to join a party after a fixed-order
 * chain of checks; GET reports the caller's membership and request for a party.
 * The query results are inputs: each is the answer for the requested party and the
 * authenticated user.
 */
module RequestRoute {
  import opened Wrappers
  import opened Json

  const Unauthorized: string := "Unauthorized"
  const PartyIdRequired: string := "party_id is required"
  const PartyNotFound: string := "Party not found"
  const PartyInactive: string := "Party is no longer active"
  const HostCannotJoin: string := "You are the host of this party"
  const AlreadyMember: string := "Already a member"
  const RequestPending: string := "Request already pending"
  const RequestRejected: string := "Request was rejected"

  /** The selected columns of the party. */
  datatype PartyRow = PartyRow(hostId: string, status: string)

  /** The caller's existing request, as far as the POST reads it. */
  datatype RequestRow = RequestRow(status: string)

  /** What the POST sees. */
  datatype PostEnv = PostEnv(
    user: Option<string>,
    body: Result<Json, string>,          // `request.json()`, or the message of what it throws
    party: Option<PartyRow>,             // `None`: a query error or no such party
    member: bool,                        // a `party_members` row exists (a query error reads as none)
    existing: Option<RequestRow>,        // the caller's `party_requests` row
    insert: Result<Json, string>)        // the inserted row as selected back, or the insert error's message

  /** The row the POST inserts into `party_requests`. */
  datatype NewRequest = NewRequest(partyId: string, userId: string, status: string)

  /** What a POST returns, and the request row it asks the database to insert, if any (the insert may still fail). */
  datatype PostOutcome = PostOutcome(response: Response, attempted: Option<NewRequest>)

  /** The 409 answer for an earlier request. */
  function ExistingResponse(r: RequestRow): (resp: Response)
    ensures resp.status == 409 && Get(resp.body, "request_status") == Some(JString(r.status))
  {
    var message := if r.status == "pending" then RequestPending else RequestRejected;
    Response(409, JObject(map["error" := JString(message), "request_status" := JString(r.status)]))
  }

  /** The POST handler. */
  function Post(env: PostEnv): (r: PostOutcome)
    ensures r.attempted.Some? ==> r.attempted.value.status == "pending"
  {
    if env.user.None? then PostOutcome(ErrorResponse(401, Unauthorized), None)
    else if env.body.Err? then PostOutcome(ErrorResponse(500, env.body.error), None)
    else
      var partyId := AsString(Get(env.body.value, "party_id"));
      if partyId.None? then PostOutcome(ErrorResponse(400, PartyIdRequired), None)
      else if env.party.None? then PostOutcome(ErrorResponse(404, PartyNotFound), None)
      else if env.party.value.status != "active" then PostOutcome(ErrorResponse(400, PartyInactive), None)
      else if env.party.value.hostId == env.user.value then PostOutcome(ErrorResponse(400, HostCannotJoin), None)
      else if env.member then
        PostOutcome(Response(409, JObject(map["error" := JString(AlreadyMember), "status" := JString("member")])), None)
      else if env.existing.Some? then PostOutcome(ExistingResponse(env.existing.value), None)
      else
        var row := NewRequest(partyId.value, env.user.value, "pending");
        match env.insert
        case Err(message) => PostOutcome(ErrorResponse(500, message), Some(row))
        case Ok(created) => PostOutcome(Success(JObject(map["ok" := JBool(true), "request" := created])), Some(row))
  }

  /** No session: 401 before anything else. */
  lemma PostUnauthenticated(env: PostEnv)
    requires env.user.None?
    ensures Post(env) == PostOutcome(ErrorResponse(401, Unauthorized), None)
  {
  }

  /** A body without a string `party_id` gives 400. */
  lemma PostNeedsPartyId(env: PostEnv)
    requires env.user.Some? && env.body.Ok? && AsString(Get(env.body.value, "party_id")).None?
    ensures Post(env) == PostOutcome(ErrorResponse(400, PartyIdRequired), None)
  {
  }

  /** What is wrong with the party itself is reported before anything about the caller. */
  lemma PostPartyChecks(env: PostEnv)
    requires env.user.Some? && env.body.Ok? && AsString(Get(env.body.value, "party_id")).Some?
    ensures env.party.None? ==> Post(env).response == ErrorResponse(404, PartyNotFound)
    ensures env.party.Some? && env.party.value.status != "active" ==>
      Post(env).response == ErrorResponse(400, PartyInactive)
    ensures env.party.Some? && env.party.value.status == "active" && env.party.value.hostId == env.user.value ==>
      Post(env).response == ErrorResponse(400, HostCannotJoin)
  {
  }

  /**
   * Membership is checked before requests: a member gets 409 "Already a member"
   * whatever request row exists; otherwise an earlier request gets 409 with its status.
   */
  lemma PostConflicts(env: PostEnv)
    requires env.user.Some? && env.body.Ok? && AsString(Get(env.body.value, "party_id")).Some?
    requires env.party.Some? && env.party.value.status == "active" && env.party.value.hostId != env.user.value
    ensures env.member ==>
      Post(env).response.status == 409 && Get(Post(env).response.body, "error") == Some(JString(AlreadyMember))
    ensures !env.member && env.existing.Some? ==>
      Post(env).response.status == 409 &&
      Get(Post(env).response.body, "error") ==
        Some(JString(if env.existing.value.status == "pending" then RequestPending else RequestRejected)) &&
      Get(Post(env).response.body, "request_status") == Some(JString(env.existing.value.status))
  {
  }

  /** The insert of a request is issued exactly when every check passes, always as pending, for the caller. */
  lemma PostInsertsOnlyWhenClear(env: PostEnv)
    ensures Post(env).attempted.Some? <==>
      env.user.Some? && env.body.Ok? && AsString(Get(env.body.value, "party_id")).Some? &&
      env.party.Some? && env.party.value.status == "active" && env.party.value.hostId != env.user.value &&
      !env.member && env.existing.None?
    ensures Post(env).attempted.Some? ==>
      Post(env).attempted.value == NewRequest(AsString(Get(env.body.value, "party_id")).value, env.user.value, "pending")
  {
  }

  // ---- GET ----

  /** What the GET sees. */
  datatype GetEnv = GetEnv(
    user: Option<string>,
    partyId: Option<string>,      // `searchParams.get("party_id")`
    request: Option<Json>,        // the caller's request row (`id, status, created_at`)
    membership: Option<Json>)     // the caller's membership row (`id, role`)

  /** `x ?? null`. */
  function OrNull(v: Option<Json>): (r: Json)
    ensures v.None? || v.value.JNull? ==> r == JNull
    ensures v.Some? ==> r == v.value
  {
    if v.Some? then v.value else JNull
  }

  /** The GET handler. */
  function Status(env: GetEnv): (r: Response)
    ensures env.user.None? ==> r == ErrorResponse(401, Unauthorized)
    ensures env.user.Some? && (env.partyId.None? || env.partyId.value == "") ==> r == ErrorResponse(400, PartyIdRequired)
  {
    if env.user.None? then ErrorResponse(401, Unauthorized)
    else if env.partyId.None? || env.partyId.value == "" then ErrorResponse(400, PartyIdRequired)
    else
      var role := if env.membership.Some? then OrNull(Get(env.membership.value, "role")) else JNull;
      Success(JObject(map["is_member" := JBool(env.membership.Some?),
                          "role" := role,
                          "request" := OrNull(env.request)]))
  }

  /** `is_member` is set exactly when there is a membership row; `role` is `membership?.role ?? null` and `request` is `request ?? null`. */
  lemma StatusProjection(env: GetEnv)
    requires env.user.Some? && env.partyId.Some? && env.partyId.value != ""
    ensures Status(env).status == 200
    ensures Get(Status(env).body, "is_member") == Some(JBool(env.membership.Some?))
    ensures Get(Status(env).body, "role") ==
      Some(if env.membership.Some? then OrNull(Get(env.membership.value, "role")) else JNull)
    ensures env.membership.Some? && Get(env.membership.value, "role").Some? ==>
      Get(Status(env).body, "role") == Get(env.membership.value, "role")
    ensures Get(Status(env).body, "request") == Some(if env.request.Some? then env.request.value else JNull)
  {
  }
}
