/**
 * `/api/reports`: POST files a report about a user or a party after a fixed-order
 * chain of checks; a duplicate report is recognised by the database's unique
 * constraint.
 */
module ReportsRoute {
  import opened Wrappers
  import opened Json
  import JsString

  const TargetTypes: seq<string> := ["user", "party"]
  const DefaultTargetType: string := "user"
  const MaxReason: nat := 500
  const UniqueViolation: string := "23505"

  const Unauthorized: string := "Unauthorized"
  const InvalidBody: string := "Invalid body"
  const ReportedIdRequired: string := "reported_id is required"
  const TargetTypeMessage: string := "target_type must be 'user' or 'party'"
  const CannotReportSelf: string := "Cannot report yourself"
  const AlreadyReported: string := "Already reported"

  /** An insert error: its Postgres code and its message. */
  datatype InsertError = InsertError(code: string, message: string)

  /** What the POST sees. */
  datatype PostEnv = PostEnv(
    user: Option<string>,
    body: Result<Json, string>,          // `request.json()`, or the message of what it throws
    insert: Result<Json, InsertError>)   // the inserted row as selected back, or the insert error

  /** The row the POST inserts into `reports`. */
  datatype ReportRow = ReportRow(reporterId: string, reportedId: string, targetType: string,
                                 reason: Option<string>, status: string)

  /** What a POST returns, and the report row it asks the database to insert, if any (the insert may still fail). */
  datatype PostOutcome = PostOutcome(response: Response, attempted: Option<ReportRow>)

  /** `(b.target_type as string) || "user"`: a falsy value defaults, anything else is kept as it is. */
  function TargetTypeOf(b: Json): (r: Json)
    ensures !Truthy(Get(b, "target_type")) ==> r == JString(DefaultTargetType)
    ensures Truthy(Get(b, "target_type")) ==> Some(r) == Get(b, "target_type")
  {
    if Truthy(Get(b, "target_type")) then Get(b, "target_type").value else JString(DefaultTargetType)
  }

  /** `VALID_TARGET_TYPES.includes(targetType)`. */
  predicate IsTargetType(v: Json) {
    v.JString? && v.s in TargetTypes
  }

  /** `typeof reason === "string" ? reason.slice(0, 500) : null`. */
  function StoredReason(v: Option<Json>): (r: Option<string>)
    ensures r.Some? <==> AsString(v).Some?
    ensures r.Some? ==> r.value == JsString.Utf16Slice(AsString(v).value, MaxReason)
  {
    if AsString(v).Some? then Some(JsString.Utf16Slice(AsString(v).value, MaxReason)) else None
  }

  /** The POST handler. */
  function Post(env: PostEnv): (r: PostOutcome)
    ensures r.attempted.Some? ==> r.attempted.value.status == "pending" && r.attempted.value.targetType in TargetTypes
  {
    if env.user.None? then PostOutcome(ErrorResponse(401, Unauthorized), None)
    else if env.body.Err? then PostOutcome(ErrorResponse(500, env.body.error), None)
    else
      var b := env.body.value;
      if !IsObject(b) then PostOutcome(ErrorResponse(400, InvalidBody), None)
      else
        var reportedId := AsString(Get(b, "reported_id"));
        var targetType := TargetTypeOf(b);
        if reportedId.None? || reportedId.value == "" then PostOutcome(ErrorResponse(400, ReportedIdRequired), None)
        else if !IsTargetType(targetType) then PostOutcome(ErrorResponse(400, TargetTypeMessage), None)
        else if reportedId.value == env.user.value then PostOutcome(ErrorResponse(400, CannotReportSelf), None)
        else
          var row := ReportRow(env.user.value, reportedId.value, targetType.s, StoredReason(Get(b, "reason")), "pending");
          match env.insert
          case Err(e) =>
            if e.code == UniqueViolation then PostOutcome(ErrorResponse(409, AlreadyReported), Some(row))
            else PostOutcome(ErrorResponse(500, e.message), Some(row))
          case Ok(report) => PostOutcome(Success(JObject(map["ok" := JBool(true), "report" := report])), Some(row))
  }

  /** No session: 401; a body that is not an object: 400. */
  lemma PostGuards(env: PostEnv)
    ensures env.user.None? ==> Post(env) == PostOutcome(ErrorResponse(401, Unauthorized), None)
    ensures env.user.Some? && env.body.Ok? && !IsObject(env.body.value) ==>
      Post(env) == PostOutcome(ErrorResponse(400, InvalidBody), None)
  {
  }

  /**
   * The insert of a report is issued exactly when the reported id is a non-empty string other than
   * the caller's own and the target type (by default "user") is "user" or "party".
   */
  lemma PostInsertsOnlyValid(env: PostEnv)
    ensures Post(env).attempted.Some? <==>
      env.user.Some? && env.body.Ok? && IsObject(env.body.value) &&
      AsString(Get(env.body.value, "reported_id")).Some? && AsString(Get(env.body.value, "reported_id")).value != "" &&
      IsTargetType(TargetTypeOf(env.body.value)) &&
      AsString(Get(env.body.value, "reported_id")).value != env.user.value
    ensures Post(env).attempted.Some? ==>
      var row := Post(env).attempted.value;
      var b := env.body.value;
      row.reporterId == env.user.value && row.reportedId == AsString(Get(b, "reported_id")).value &&
      row.reason == StoredReason(Get(b, "reason")) &&
      (!Truthy(Get(b, "target_type")) ==> row.targetType == DefaultTargetType)
  {
  }

  /** Reporting oneself is refused. */
  lemma PostRefusesSelf(env: PostEnv)
    requires env.user.Some? && env.body.Ok? && IsObject(env.body.value) && IsTargetType(TargetTypeOf(env.body.value))
    requires Get(env.body.value, "reported_id") == Some(JString(env.user.value)) && env.user.value != ""
    ensures Post(env) == PostOutcome(ErrorResponse(400, CannotReportSelf), None)
  {
  }

  /** The stored reason holds at most 500 UTF-16 code units, and a short reason is kept whole. */
  lemma StoredReasonBound(v: Option<Json>)
    requires AsString(v).Some?
    ensures JsString.Utf16Length(StoredReason(v).value) <= MaxReason
    ensures JsString.Utf16Length(AsString(v).value) <= MaxReason ==> StoredReason(v).value == AsString(v).value
  {
    JsString.Utf16SliceSpec(AsString(v).value, MaxReason);
  }

  /** A unique violation is a duplicate, answered 409; every other insert error is a 500 with its message. */
  lemma PostInsertErrors(env: PostEnv)
    requires Post(env).attempted.Some? && env.insert.Err?
    ensures env.insert.error.code == UniqueViolation ==> Post(env).response == ErrorResponse(409, AlreadyReported)
    ensures env.insert.error.code != UniqueViolation ==> Post(env).response == ErrorResponse(500, env.insert.error.message)
  {
  }
}
