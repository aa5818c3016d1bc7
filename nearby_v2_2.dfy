/**
 * `GET /api/parties/nearby` (the `last_v2_2` revision): in dev test mode it answers
 * from the mock parties, filtered by distance from the requested centre (Moscow by
 * default) and by host; otherwise it behaves as the `last_v2` handler.  The distance
 * is a parameter: the haversine formula is floating point and not modelled.
 */
module NearbyV22 {
  import opened Wrappers
  import opened Json
  import JsNumber
  import NearbyV2

  /** Central Moscow, the dev-mode default centre. */
  const MoscowLat: JsNumber.Decimal := JsNumber.Decimal(55751244, -6)
  const MoscowLng: JsNumber.Decimal := JsNumber.Decimal(37618423, -6)

  /** A mock party, as the fixture defines it. */
  datatype MockParty = MockParty(id: string, hostId: string, mood: Option<string>, description: Option<string>,
                                 locationName: Option<string>, expiresAt: Option<string>, isBoosted: bool,
                                 lat: JsNumber.Decimal, lng: JsNumber.Decimal)

  /** A party as the route lists it: no nulls in the text fields. */
  datatype NearbyParty = NearbyParty(id: string, hostId: string, mood: string, description: string,
                                     locationName: string, expiresAt: string, isBoosted: bool,
                                     lat: JsNumber.Decimal, lng: JsNumber.Decimal)

  /** Distance in metres from a centre to a party. */
  type Distance = (JsNumber.Decimal, JsNumber.Decimal, MockParty) -> real

  datatype DevEnv = DevEnv(
    devMode: bool,                 // `NEXT_PUBLIC_DEV_TEST_MODE === "true"`
    request: NearbyV2.NearbyEnv,
    mocks: seq<MockParty>,         // `MOCK_PARTIES`
    devHostId: string,             // `DEV_HOST_ID`
    distance: Distance)

  /** The filter callback: near enough, and hosted by the dev user when `my` is set. */
  predicate Keep(p: MockParty, lat: JsNumber.Decimal, lng: JsNumber.Decimal, radius: JsNumber.Decimal,
                 my: bool, devHostId: string, distance: Distance) {
    !(distance(lat, lng, p) > JsNumber.Value(radius)) && !(my && p.hostId != devHostId)
  }

  /** `MOCK_PARTIES.filter(...)`. */
  function Filter(mocks: seq<MockParty>, lat: JsNumber.Decimal, lng: JsNumber.Decimal, radius: JsNumber.Decimal,
                  my: bool, devHostId: string, distance: Distance): (r: seq<MockParty>)
    ensures |r| <= |mocks|
    ensures forall p :: p in r <==> p in mocks && Keep(p, lat, lng, radius, my, devHostId, distance)
  {
    if mocks == [] then []
    else
      var rest := Filter(mocks[1..], lat, lng, radius, my, devHostId, distance);
      if Keep(mocks[0], lat, lng, radius, my, devHostId, distance) then [mocks[0]] + rest else rest
  }

  /** The `.map(...)` step: missing text becomes the empty string. */
  function View(p: MockParty): (v: NearbyParty)
    ensures v.id == p.id && v.hostId == p.hostId && v.isBoosted == p.isBoosted && v.lat == p.lat && v.lng == p.lng
    ensures v.mood == p.mood.GetOr("") && v.description == p.description.GetOr("")
    ensures v.locationName == p.locationName.GetOr("") && v.expiresAt == p.expiresAt.GetOr("")
  {
    NearbyParty(p.id, p.hostId, p.mood.GetOr(""), p.description.GetOr(""), p.locationName.GetOr(""),
                p.expiresAt.GetOr(""), p.isBoosted, p.lat, p.lng)
  }

  function PartyJson(v: NearbyParty): Json {
    JObject(map["id" := JString(v.id), "host_id" := JString(v.hostId), "mood" := JString(v.mood),
                "description" := JString(v.description), "location_name" := JString(v.locationName),
                "expires_at" := JString(v.expiresAt), "is_boosted" := JBool(v.isBoosted),
                "lat" := JNumber(v.lat), "lng" := JNumber(v.lng)])
  }

  /** The dev-mode centre: the requested one, Moscow by default. */
  function DevCentre(request: NearbyV2.NearbyEnv): (JsNumber.Decimal, JsNumber.Decimal) {
    (NearbyV2.ParseNumber(request.lat, MoscowLat), NearbyV2.ParseNumber(request.lng, MoscowLng))
  }

  /** The dev-mode radius, clamped like the production one. */
  function DevRadius(request: NearbyV2.NearbyEnv): JsNumber.Decimal {
    var raw := NearbyV2.ParseNumber(Some(if request.radius.Some? then request.radius.value else ""), NearbyV2.DefaultRadius);
    NearbyV2.ClampRadiusBounds(raw);
    NearbyV2.ClampRadius(raw).d
  }

  /** The parties the dev mode lists. */
  function DevParties(env: DevEnv): seq<NearbyParty> {
    var (lat, lng) := DevCentre(env.request);
    var kept := Filter(env.mocks, lat, lng, DevRadius(env.request), NearbyV2.ParseBool(env.request.my),
                       env.devHostId, env.distance);
    seq(|kept|, i requires 0 <= i < |kept| => View(kept[i]))
  }

  /** The GET handler. */
  function Get(env: DevEnv): (r: NearbyV2.NearbyOutcome)
    ensures env.devMode ==> r.called.None? && r.response.status == 200
  {
    if env.devMode then
      var parties := DevParties(env);
      NearbyV2.NearbyOutcome(Success(JArray(seq(|parties|, i requires 0 <= i < |parties| => PartyJson(parties[i])))), None)
    else if env.request.user.None? then NearbyV2.NearbyOutcome(ErrorResponse(401, NearbyV2.Unauthorized), None)
    else NearbyV2.Authenticated(env.request, env.request.user.value, NearbyV2.Zero, NearbyV2.Zero)
  }

  /** Outside dev mode the handler is the `last_v2` one. */
  lemma ProductionIsV2(env: DevEnv)
    requires !env.devMode
    ensures Get(env) == NearbyV2.Get(env.request)
  {
  }

  /**
   * Dev mode lists a mock party exactly when it lies within the clamped radius of the
   * centre and, when `my` is set, is hosted by the dev user; the listed entries have
   * their missing text fields replaced by empty strings.
   */
  lemma DevListsNearby(env: DevEnv)
    ensures var (lat, lng) := DevCentre(env.request);
      var radius := DevRadius(env.request);
      var my := NearbyV2.ParseBool(env.request.my);
      forall v :: v in DevParties(env) <==>
        exists p :: p in env.mocks && Keep(p, lat, lng, radius, my, env.devHostId, env.distance) && v == View(p)
  {
    var (lat, lng) := DevCentre(env.request);
    var radius := DevRadius(env.request);
    var my := NearbyV2.ParseBool(env.request.my);
    var kept := Filter(env.mocks, lat, lng, radius, my, env.devHostId, env.distance);
    var parties := DevParties(env);
    forall v | v in parties
      ensures exists p :: p in env.mocks && Keep(p, lat, lng, radius, my, env.devHostId, env.distance) && v == View(p)
    {
      var i :| 0 <= i < |parties| && parties[i] == v;
      assert kept[i] in kept;
    }
    forall p | p in env.mocks && Keep(p, lat, lng, radius, my, env.devHostId, env.distance)
      ensures View(p) in parties
    {
      var i :| 0 <= i < |kept| && kept[i] == p;
      assert parties[i] == View(p);
    }
  }

  /** The dev radius lies in [500, 50000], and the centre defaults to Moscow. */
  lemma DevDefaults(env: DevEnv)
    ensures NearbyV2.MinRadius as real <= JsNumber.Value(DevRadius(env.request)) <= NearbyV2.MaxRadius as real
    ensures env.request.lat.None? ==> DevCentre(env.request).0 == MoscowLat
    ensures env.request.lng.None? ==> DevCentre(env.request).1 == MoscowLng
  {
    var raw := NearbyV2.ParseNumber(Some(if env.request.radius.Some? then env.request.radius.value else ""), NearbyV2.DefaultRadius);
    NearbyV2.ClampRadiusBounds(raw);
  }
}
