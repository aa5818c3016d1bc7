/**
 * `GET /api/parties/nearby` (the `last_v2` revision): query parameters are parsed
 * leniently, the radius is clamped, the centre is range-checked, and the
 * `get_nearby_parties` RPC's list is returned.  The `last_v2_2` revision reuses
 * these helpers word for word; see `NearbyV22`.
 */
module NearbyV2 {
  import opened Wrappers
  import opened Json
  import JsNumber
  import JsString

  const Unauthorized: string := "Unauthorized"
  const InvalidCentre: string := "Invalid lat or lng"
  const MinRadius: int := 500
  const MaxRadius: int := 50000
  const DefaultRadius: JsNumber.Decimal := JsNumber.Decimal(15000, 0)
  const Zero: JsNumber.Decimal := JsNumber.Decimal(0, 0)

  /**
   * `parseNumber(value, fallback)`: the fallback for a missing or empty parameter and
   * for one whose `parseFloat` is NaN or infinite; the parsed number otherwise.
   */
  function ParseNumber(value: Option<string>, fallback: JsNumber.Decimal): (r: JsNumber.Decimal)
    ensures value.None? || value.value == "" ==> r == fallback
    ensures value.Some? && value.value != "" && !JsNumber.ParseFloat(value.value).Finite? ==> r == fallback
  {
    if value.None? || value.value == "" then fallback
    else
      var n := JsNumber.ParseFloat(value.value);
      if JsNumber.IsFinite(n) then n.d else fallback
  }

  /** A plain number parameter is read as that number, and a trailing unit such as `"m"` is ignored. */
  lemma ParseNumberOfDigits(n: nat, rest: string, fallback: JsNumber.Decimal)
    requires n < JsNumber.OverflowThreshold
    requires rest == [] || (!JsNumber.IsDigitIn(rest[0], 10) && rest[0] != '.' && rest[0] != 'e' && rest[0] != 'E')
    ensures ParseNumber(Some(JsNumber.NatToString(n) + rest), fallback) == JsNumber.Decimal(n, 0)
  {
    if rest == [] {
      assert JsNumber.NatToString(n) + rest == JsNumber.NatToString(n);
      JsNumber.ParseFloatOfDigits(n);
    } else {
      JsNumber.ParseFloatOfDigitsThenText(n, rest);
    }
  }

  /** Text that does not start a number falls back. */
  lemma ParseNumberOfText(value: string, fallback: JsNumber.Decimal)
    requires value != [] && 'a' <= value[0] <= 'z'
    ensures ParseNumber(Some(value), fallback) == fallback
  {
    assert !JsString.IsTrimmable(value[0]);
    assert JsString.LeadingCount(value) == 0;
    assert value[0..] == value;
    if |value| >= 8 {
      assert value[..8][0] == value[0];
    }
    assert JsNumber.DigitRun(value, 0) == 0;
  }

  /** `parseBool`: only `"true"` and `"1"` are true. */
  function ParseBool(value: Option<string>): (r: bool)
    ensures r <==> value == Some("true") || value == Some("1")
  {
    if value.None? || value.value == "" then false else value.value == "true" || value.value == "1"
  }

  /** `Math.max(500, Math.min(50000, raw))`. */
  function ClampRadius(raw: JsNumber.Decimal): (r: JsNumber.Number)
  {
    JsNumber.Max(JsNumber.FromInt(MinRadius), JsNumber.Min(JsNumber.FromInt(MaxRadius), JsNumber.Finite(raw)))
  }

  /** The clamped radius is a number within [500, 50000], and a radius already within it is kept. */
  lemma ClampRadiusBounds(raw: JsNumber.Decimal)
    ensures ClampRadius(raw).Finite?
    ensures MinRadius as real <= JsNumber.Value(ClampRadius(raw).d) <= MaxRadius as real
    ensures MinRadius as real <= JsNumber.Value(raw) <= MaxRadius as real ==>
      JsNumber.Value(ClampRadius(raw).d) == JsNumber.Value(raw)
    ensures JsNumber.Value(raw) < MinRadius as real ==> ClampRadius(raw) == JsNumber.FromInt(MinRadius)
    ensures JsNumber.Value(raw) > MaxRadius as real ==> ClampRadius(raw) == JsNumber.FromInt(MaxRadius)
  {
    JsNumber.ValueOfInt(MinRadius);
    JsNumber.ValueOfInt(MaxRadius);
  }

  /** `lat < -90 || lat > 90 || lng < -180 || lng > 180` is false. */
  predicate CentreInRange(lat: JsNumber.Decimal, lng: JsNumber.Decimal) {
    -90.0 <= JsNumber.Value(lat) <= 90.0 && -180.0 <= JsNumber.Value(lng) <= 180.0
  }

  /** The query parameters and what the calls return. */
  datatype NearbyEnv = NearbyEnv(
    user: Option<string>,
    lat: Option<string>,           // `searchParams.get("lat")`
    lng: Option<string>,
    radius: Option<string>,        // `searchParams.get("radius_m")`
    my: Option<string>,
    rpc: Result<Json, string>)     // the RPC's data, or its error's message

  /** The arguments of `get_nearby_parties`. */
  datatype RpcArgs = RpcArgs(lat: JsNumber.Decimal, lng: JsNumber.Decimal, radius: JsNumber.Number,
                             filterMy: bool, userId: string)

  datatype NearbyOutcome = NearbyOutcome(response: Response, called: Option<RpcArgs>)

  /** `Array.isArray(data) ? data : []`. */
  function ListOrEmpty(data: Json): (r: Json)
    ensures r.JArray?
    ensures data.JArray? ==> r == data
  {
    if data.JArray? then data else JArray([])
  }

  /** The handler after authentication; the centre defaults to `(lat0, lng0)`. */
  function Authenticated(env: NearbyEnv, userId: string, lat0: JsNumber.Decimal, lng0: JsNumber.Decimal): (r: NearbyOutcome)
    ensures r.called.Some? ==> r.called.value.userId == userId
  {
    var lat := ParseNumber(env.lat, lat0);
    var lng := ParseNumber(env.lng, lng0);
    var radius := ClampRadius(ParseNumber(Some(if env.radius.Some? then env.radius.value else ""), DefaultRadius));
    var my := ParseBool(env.my);
    if !CentreInRange(lat, lng) then NearbyOutcome(ErrorResponse(400, InvalidCentre), None)
    else
      var args := RpcArgs(lat, lng, radius, my, userId);
      match env.rpc
      case Err(message) => NearbyOutcome(ErrorResponse(500, message), Some(args))
      case Ok(data) => NearbyOutcome(Success(ListOrEmpty(data)), Some(args))
  }

  /** The GET handler: the centre defaults to (0, 0). */
  function Get(env: NearbyEnv): (r: NearbyOutcome)
    ensures env.user.None? ==> r == NearbyOutcome(ErrorResponse(401, Unauthorized), None)
  {
    if env.user.None? then NearbyOutcome(ErrorResponse(401, Unauthorized), None)
    else Authenticated(env, env.user.value, Zero, Zero)
  }

  /** An out-of-range centre is refused with 400 and no RPC call; an in-range one is passed on. */
  lemma GetChecksCentre(env: NearbyEnv)
    requires env.user.Some?
    ensures var lat, lng := ParseNumber(env.lat, Zero), ParseNumber(env.lng, Zero);
      (!CentreInRange(lat, lng) <==> Get(env).response == ErrorResponse(400, InvalidCentre)) &&
      (Get(env).called.Some? <==> CentreInRange(lat, lng))
  {
  }

  /** The RPC gets the parsed centre, a radius within [500, 50000], the caller's id and the `my` flag. */
  lemma GetCallArguments(env: NearbyEnv)
    requires env.user.Some? && Get(env).called.Some?
    ensures var args := Get(env).called.value;
      args.lat == ParseNumber(env.lat, Zero) && args.lng == ParseNumber(env.lng, Zero) &&
      args.userId == env.user.value && args.filterMy == ParseBool(env.my) && args.radius.Finite? &&
      MinRadius as real <= JsNumber.Value(args.radius.d) <= MaxRadius as real
  {
    var raw := ParseNumber(Some(if env.radius.Some? then env.radius.value else ""), DefaultRadius);
    var lat, lng := ParseNumber(env.lat, Zero), ParseNumber(env.lng, Zero);
    assert Get(env).called == Some(RpcArgs(lat, lng, ClampRadius(raw), ParseBool(env.my), env.user.value));
    ClampRadiusBounds(raw);
  }

  /** Without parameters the centre is (0, 0) and the radius 15000. */
  lemma GetDefaults(env: NearbyEnv)
    requires env.user.Some? && env.lat.None? && env.lng.None? && env.radius.None?
    ensures Get(env).called.Some?
    ensures Get(env).called.value.lat == Zero && Get(env).called.value.lng == Zero
    ensures Get(env).called.value.radius == JsNumber.Finite(DefaultRadius)
  {
    ClampRadiusBounds(DefaultRadius);
    JsNumber.ValueOfInt(15000);
  }

  /** A successful call answers with the RPC's list, or an empty list when the data is not one. */
  lemma GetListsParties(env: NearbyEnv)
    requires env.user.Some? && Get(env).called.Some? && env.rpc.Ok?
    ensures Get(env).response == Success(if env.rpc.value.JArray? then env.rpc.value else JArray([]))
  {
  }
}
