/**
 * `/api/parties/create`: `validate` checks the body in a fixed order and reports the
 * first failure; the POST handler then calls the `create_party` RPC and shapes its
 * first row into the response.
 */
module CreateRoute {
  import opened Wrappers
  import opened Json
  import JsNumber
  import JsString

  const Moods: seq<string> := ["party", "chill", "walk", "games"]
  const ExpiresHours: seq<int> := [1, 2, 3, 6]
  const MinDescription: nat := 5
  const MaxDescription: nat := 280

  const Unauthorized: string := "Unauthorized"
  const InvalidBody: string := "Invalid body"
  const MoodMessage: string := "mood must be one of: party, chill, walk, games"
  const DescriptionRequired: string := "description required"
  const DescriptionLength: string := "description must be 5-280 characters"
  const LatMessage: string := "lat must be in [-90, 90]"
  const LngMessage: string := "lng must be in [-180, 180]"
  const ExpiresMessage: string := "expires_in_hours must be 1, 2, 3, or 6"
  const CreateFailed: string := "Failed to create party"

  /** A validated body; the numbers are kept as written. */
  datatype CreateBody = CreateBody(mood: string, description: string, locationName: string,
                                   lat: JsNumber.Decimal, lng: JsNumber.Decimal,
                                   expiresInHours: JsNumber.Decimal)

  /** `typeof v === "number"` and the value lies in `[lo, hi]` (JSON has no NaN). */
  predicate NumberIn(v: Option<Json>, lo: real, hi: real) {
    AsNumber(v).Some? && lo <= JsNumber.Value(AsNumber(v).value) <= hi
  }

  /** `typeof v === "number" && EXPIRES_HOURS.includes(v)`. */
  predicate IsExpiresHours(v: Option<Json>) {
    AsNumber(v).Some? && exists h :: h in ExpiresHours && JsNumber.Value(AsNumber(v).value) == h as real
  }

  predicate IsMood(v: Option<Json>) {
    AsString(v).Some? && AsString(v).value in Moods
  }

  /** `validate`. */
  function Validate(b: Json): (r: Result<CreateBody, string>)
    ensures r.Ok? ==> r.value.mood in Moods
    ensures r.Ok? ==> MinDescription <= JsString.Utf16Length(r.value.description) <= MaxDescription
  {
    if !IsObject(b) then Err(InvalidBody)
    else if !IsMood(Get(b, "mood")) then Err(MoodMessage)
    else if AsString(Get(b, "description")).None? then Err(DescriptionRequired)
    else
      var description := AsString(Get(b, "description")).value;
      var length := JsString.Utf16Length(description);
      if length < MinDescription || length > MaxDescription then Err(DescriptionLength)
      else if !NumberIn(Get(b, "lat"), -90.0, 90.0) then Err(LatMessage)
      else if !NumberIn(Get(b, "lng"), -180.0, 180.0) then Err(LngMessage)
      else if !IsExpiresHours(Get(b, "expires_in_hours")) then Err(ExpiresMessage)
      else
        var locationName := if AsString(Get(b, "location_name")).Some? then AsString(Get(b, "location_name")).value else "";
        Ok(CreateBody(AsString(Get(b, "mood")).value, description, locationName,
                      AsNumber(Get(b, "lat")).value, AsNumber(Get(b, "lng")).value,
                      AsNumber(Get(b, "expires_in_hours")).value))
  }

  // ---- The checks as a list, first failure wins ----

  datatype Check = Check(passes: bool, message: string)

  /** The requirements on a body, in the order they are checked, each with its message. */
  function CreateChecks(b: Json): seq<Check> {
    var description := AsString(Get(b, "description"));
    [Check(IsObject(b), InvalidBody),
     Check(IsMood(Get(b, "mood")), MoodMessage),
     Check(description.Some?, DescriptionRequired),
     Check(description.Some? && MinDescription <= JsString.Utf16Length(description.value) <= MaxDescription,
           DescriptionLength),
     Check(NumberIn(Get(b, "lat"), -90.0, 90.0), LatMessage),
     Check(NumberIn(Get(b, "lng"), -180.0, 180.0), LngMessage),
     Check(IsExpiresHours(Get(b, "expires_in_hours")), ExpiresMessage)]
  }

  /** The message of the first failing check from index `i` on. */
  function FirstFailure(cs: seq<Check>, i: nat): (r: Option<string>)
    requires i <= |cs|
    ensures r.None? <==> forall j :: i <= j < |cs| ==> cs[j].passes
    decreases |cs| - i
  {
    if i == |cs| then None
    else if !cs[i].passes then Some(cs[i].message)
    else FirstFailure(cs, i + 1)
  }

  /**
   * `validate` fails exactly when some requirement does not hold, and then reports
   * the first one in order.
   */
  lemma ValidateReportsFirstFailure(b: Json)
    ensures Validate(b).Err? <==> FirstFailure(CreateChecks(b), 0).Some?
    ensures Validate(b).Err? ==> Validate(b).error == FirstFailure(CreateChecks(b), 0).value
  {
    var cs := CreateChecks(b);
    assert FirstFailure(cs, 0) == (if !cs[0].passes then Some(cs[0].message) else FirstFailure(cs, 1));
    assert FirstFailure(cs, 1) == (if !cs[1].passes then Some(cs[1].message) else FirstFailure(cs, 2));
    assert FirstFailure(cs, 2) == (if !cs[2].passes then Some(cs[2].message) else FirstFailure(cs, 3));
    assert FirstFailure(cs, 3) == (if !cs[3].passes then Some(cs[3].message) else FirstFailure(cs, 4));
    assert FirstFailure(cs, 4) == (if !cs[4].passes then Some(cs[4].message) else FirstFailure(cs, 5));
    assert FirstFailure(cs, 5) == (if !cs[5].passes then Some(cs[5].message) else FirstFailure(cs, 6));
    assert FirstFailure(cs, 6) == (if !cs[6].passes then Some(cs[6].message) else FirstFailure(cs, 7));
  }

  /**
   * A body that passes has its fields echoed unchanged; `location_name` is the string
   * given, or empty when it is missing or not a string.
   */
  lemma ValidateEchoes(b: Json)
    requires Validate(b).Ok?
    ensures var d := Validate(b).value;
      Get(b, "mood") == Some(JString(d.mood)) && Get(b, "description") == Some(JString(d.description)) &&
      Get(b, "lat") == Some(JNumber(d.lat)) && Get(b, "lng") == Some(JNumber(d.lng)) &&
      Get(b, "expires_in_hours") == Some(JNumber(d.expiresInHours)) &&
      -90.0 <= JsNumber.Value(d.lat) <= 90.0 && -180.0 <= JsNumber.Value(d.lng) <= 180.0 &&
      (JsNumber.Value(d.expiresInHours) == 1.0 || JsNumber.Value(d.expiresInHours) == 2.0 ||
       JsNumber.Value(d.expiresInHours) == 3.0 || JsNumber.Value(d.expiresInHours) == 6.0) &&
      d.locationName == (if AsString(Get(b, "location_name")).Some? then AsString(Get(b, "location_name")).value else "")
  {
    var h :| h in ExpiresHours && JsNumber.Value(AsNumber(Get(b, "expires_in_hours")).value) == h as real;
  }

  // ---- POST ----

  /** The request and what the handler's calls return. */
  datatype CreateEnv = CreateEnv(
    user: Option<string>,
    body: Result<Json, string>,   // `request.json()`, or the message of the exception it throws
    rpc: Result<Json, string>)    // the `create_party` RPC's data, or its error's message

  /** The response and the arguments the RPC was called with, if it was. */
  datatype CreateOutcome = CreateOutcome(response: Response, called: Option<CreateBody>)

  /** `Array.isArray(data) && data.length > 0 ? data[0] : null`. */
  function FirstRow(data: Json): (r: Option<Json>)
    ensures r.Some? <==> data.JArray? && |data.items| > 0
  {
    if data.JArray? && |data.items| > 0 then Some(data.items[0]) else None
  }

  /** `row.location_name ?? ""`. */
  function LocationOrEmpty(v: Option<Json>): (r: Json)
    ensures IsNullish(v) ==> r == JString("")
    ensures !IsNullish(v) ==> r == v.value
  {
    if IsNullish(v) then JString("") else v.value
  }

  /** The response body built from the created row. */
  function RowResponse(row: Json): Json {
    ObjectOf([("id", Get(row, "id")),
              ("host_id", Get(row, "host_id")),
              ("mood", Get(row, "mood")),
              ("description", Get(row, "description")),
              ("location_name", Some(LocationOrEmpty(Get(row, "location_name")))),
              ("status", Get(row, "status")),
              ("expires_at", Get(row, "expires_at"))])
  }

  /** The POST handler; an exception in any of its calls is caught and answered with 500. */
  function Post(env: CreateEnv): (r: CreateOutcome)
    ensures r.called.Some? ==> env.body.Ok? && Validate(env.body.value) == Ok(r.called.value)
  {
    if env.user.None? then CreateOutcome(ErrorResponse(401, Unauthorized), None)
    else if env.body.Err? then CreateOutcome(ErrorResponse(500, env.body.error), None)
    else
      var v := Validate(env.body.value);
      if v.Err? then CreateOutcome(ErrorResponse(400, v.error), None)
      else match env.rpc
        case Err(message) => CreateOutcome(ErrorResponse(500, message), Some(v.value))
        case Ok(data) =>
          var row := FirstRow(data);
          if !Truthy(row) then CreateOutcome(ErrorResponse(500, CreateFailed), Some(v.value))
          else CreateOutcome(Success(RowResponse(row.value)), Some(v.value))
  }

  /** Nothing is checked or created without a session. */
  lemma PostUnauthenticated(env: CreateEnv)
    requires env.user.None?
    ensures Post(env) == CreateOutcome(ErrorResponse(401, Unauthorized), None)
  {
  }

  /** An invalid body is answered 400 with the first failure's message, and nothing is created. */
  lemma PostRejectsInvalid(env: CreateEnv)
    requires env.user.Some? && env.body.Ok?
    requires FirstFailure(CreateChecks(env.body.value), 0).Some?
    ensures Post(env) == CreateOutcome(ErrorResponse(400, FirstFailure(CreateChecks(env.body.value), 0).value), None)
  {
    ValidateReportsFirstFailure(env.body.value);
  }

  /** A valid body makes the RPC called with it; no usable first row gives 500. */
  lemma PostEmptyResult(env: CreateEnv)
    requires env.user.Some? && env.body.Ok? && Validate(env.body.value).Ok?
    requires env.rpc.Ok? && !Truthy(FirstRow(env.rpc.value))
    ensures Post(env) == CreateOutcome(ErrorResponse(500, CreateFailed), Some(Validate(env.body.value).value))
  {
  }

  /** The created row is echoed; a missing or null `location_name` becomes the empty string. */
  lemma PostEchoesRow(env: CreateEnv)
    requires env.user.Some? && env.body.Ok? && Validate(env.body.value).Ok?
    requires env.rpc.Ok? && Truthy(FirstRow(env.rpc.value))
    ensures var row := FirstRow(env.rpc.value).value;
      var body := Post(env).response.body;
      Post(env).response.status == 200 &&
      Get(body, "id") == Get(row, "id") && Get(body, "host_id") == Get(row, "host_id") &&
      Get(body, "mood") == Get(row, "mood") && Get(body, "description") == Get(row, "description") &&
      Get(body, "status") == Get(row, "status") && Get(body, "expires_at") == Get(row, "expires_at") &&
      Get(body, "location_name") == Some(if IsNullish(Get(row, "location_name")) then JString("")
                                         else Get(row, "location_name").value)
  {
    var row := FirstRow(env.rpc.value).value;
    var props := [("id", Get(row, "id")),
                  ("host_id", Get(row, "host_id")),
                  ("mood", Get(row, "mood")),
                  ("description", Get(row, "description")),
                  ("location_name", Some(LocationOrEmpty(Get(row, "location_name")))),
                  ("status", Get(row, "status")),
                  ("expires_at", Get(row, "expires_at"))];
    forall i | 0 <= i < |props|
      ensures Get(ObjectOf(props), props[i].0) == props[i].1
    {
      GetObjectOf(props, props[i].0);
      LastValueOfDistinct(props, i, |props|);
    }
    assert props[0].0 == "id" && props[1].0 == "host_id" && props[2].0 == "mood" && props[3].0 == "description";
    assert props[4].0 == "location_name" && props[5].0 == "status" && props[6].0 == "expires_at";
  }
}
