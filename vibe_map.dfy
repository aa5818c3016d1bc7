/**
 * `VibeMap`: the mood emoji of a party pin, the rule that decides when moving the
 * map moves the search centre, and how the list of parties is replaced when the
 * nearby search answers.  Map positions are exact decimals; the distance between
 * two positions is a parameter (the source's planar approximation uses `sqrt`).
 */
module VibeMap {
  import opened Wrappers
  import opened Json
  import JsNumber
  import JsString
  import NearbyV2
  import NearbyV22

  const Sparkles: string := "\U{2728}"
  const Beers: string := "\U{1F37B}"
  const Coffee: string := "\U{2615}"
  const Theatre: string := "\U{1F3AD}"
  const Gamepad: string := "\U{1F3AE}"

  /** The search radius the map asks for, in metres. */
  const RadiusMetres: nat := 15000
  /** A move shorter than this (metres) keeps the search centre. */
  const DebounceMetres: real := 300.0
  const InitialZoom: JsNumber.Decimal := JsNumber.Decimal(12, 0)

  /** `m.includes(word)` for the lower-cased mood. */
  predicate Mentions(mood: string, word: string) {
    JsString.Includes(JsString.LowerForMatch(mood), word)
  }

  /** `getMoodEmoji`. */
  function MoodEmoji(mood: Option<string>): (e: string)
    ensures mood.None? || mood.value == "" ==> e == Sparkles
  {
    if mood.None? || mood.value == "" then Sparkles
    else
      var m := mood.value;
      if Mentions(m, "party") || Mentions(m, "bar") then Beers
      else if Mentions(m, "chill") || Mentions(m, "coffee") then Coffee
      else if Mentions(m, "walk") || Mentions(m, "culture") then Theatre
      else if Mentions(m, "game") then Gamepad
      else Sparkles
  }

  /** The emoji groups in priority order. */
  function Group(e: string): nat {
    if e == Beers then 0 else if e == Coffee then 1 else if e == Theatre then 2 else if e == Gamepad then 3 else 4
  }

  /**
   * A mood gets the first group (party/bar, chill/coffee, walk/culture, game) one of
   * whose words occurs in it, regardless of case; a mood mentioning none gets ✨.
   */
  lemma MoodEmojiPriority(m: string)
    requires m != ""
    ensures var e := MoodEmoji(Some(m));
      (e == Beers <==> Mentions(m, "party") || Mentions(m, "bar")) &&
      (e == Coffee <==> !(Mentions(m, "party") || Mentions(m, "bar")) && (Mentions(m, "chill") || Mentions(m, "coffee"))) &&
      (e == Theatre <==> !(Mentions(m, "party") || Mentions(m, "bar") || Mentions(m, "chill") || Mentions(m, "coffee")) &&
                         (Mentions(m, "walk") || Mentions(m, "culture"))) &&
      (Group(e) == 3 <==> !(Mentions(m, "party") || Mentions(m, "bar") || Mentions(m, "chill") || Mentions(m, "coffee") ||
                            Mentions(m, "walk") || Mentions(m, "culture")) && Mentions(m, "game")) &&
      (e == Sparkles <==> !(Mentions(m, "party") || Mentions(m, "bar") || Mentions(m, "chill") || Mentions(m, "coffee") ||
                            Mentions(m, "walk") || Mentions(m, "culture") || Mentions(m, "game")))
  {
  }

  /** The emoji ignores case: an already lower-cased mood gets the same one. */
  lemma MoodEmojiIgnoresCase(m: string)
    ensures MoodEmoji(Some(JsString.LowerForMatch(m))) == MoodEmoji(Some(m))
  {
    var l := JsString.LowerForMatch(m);
    JsString.LowerForMatchIdempotent(m);
    JsString.LowerForMatchEmpty(m);
    assert forall w :: Mentions(l, w) == Mentions(m, w);
  }

  /** Where the last search was made from. */
  datatype LastFetch = LastFetch(lat: JsNumber.Decimal, lng: JsNumber.Decimal, zoom: JsNumber.Decimal)

  /** A `boundschange` event: whether it has a `get`, and its `newCenter` and `newZoom`. */
  datatype BoundsEvent = BoundsEvent(hasGetter: bool, newCenter: Option<seq<JsNumber.Decimal>>,
                                     newZoom: Option<JsNumber.Decimal>)

  /** The distance in metres from the first position to the second. */
  type Distance = (JsNumber.Decimal, JsNumber.Decimal, JsNumber.Decimal, JsNumber.Decimal) -> real

  /**
   * The search centre moves when there was no search yet, when the map moved more
   * than 300 m from it, or when the zoom is given and differs.
   */
  predicate Moves(last: Option<LastFetch>, lat: JsNumber.Decimal, lng: JsNumber.Decimal,
                  newZoom: Option<JsNumber.Decimal>, distance: Distance) {
    last.None? ||
    distance(last.value.lat, last.value.lng, lat, lng) > DebounceMetres ||
    (newZoom.Some? && JsNumber.Value(last.value.zoom) != JsNumber.Value(newZoom.value))
  }

  /** An event that repeats the last search's position and zoom does not move it. */
  lemma RepeatedEventStays(f: LastFetch, distance: Distance)
    requires distance(f.lat, f.lng, f.lat, f.lng) <= DebounceMetres
    ensures !Moves(Some(f), f.lat, f.lng, Some(f.zoom), distance)
    ensures !Moves(Some(f), f.lat, f.lng, None, distance)
  {
  }

  /** The first event always moves the centre. */
  lemma FirstEventMoves(lat: JsNumber.Decimal, lng: JsNumber.Decimal, newZoom: Option<JsNumber.Decimal>, distance: Distance)
    ensures Moves(None, lat, lng, newZoom, distance)
  {
  }

  /** `URLSearchParams.get`: the first value of the name. */
  function Param(params: seq<(string, string)>, name: string): (r: Option<string>)
    ensures r.Some? <==> exists i :: 0 <= i < |params| && params[i].0 == name
  {
    ParamFrom(params, name, 0)
  }

  /** The first value of the name at index `i` or later. */
  function ParamFrom(params: seq<(string, string)>, name: string, i: nat): (r: Option<string>)
    ensures r.Some? <==> exists j :: i <= j < |params| && params[j].0 == name
    decreases |params| - i
  {
    if i >= |params| then None
    else if params[i].0 == name then Some(params[i].1)
    else ParamFrom(params, name, i + 1)
  }

  /** The nearby search's query: the centre, the radius, and `my=true` when only own parties are asked for. */
  function Query(lat: JsNumber.Decimal, lng: JsNumber.Decimal, my: bool): (q: seq<(string, string)>)
  {
    [("lat", JsNumber.NumberToString(JsNumber.Finite(lat))), ("lng", JsNumber.NumberToString(JsNumber.Finite(lng))),
     ("radius_m", JsNumber.NumberToString(JsNumber.FromInt(RadiusMetres)))] + (if my then [("my", "true")] else [])
  }

  /** `String(RADIUS_M)` is the radius's plain digits. */
  lemma RadiusText()
    ensures JsNumber.NumberToString(JsNumber.FromInt(RadiusMetres)) == JsNumber.NatToString(RadiusMetres)
  {
    assert |JsNumber.NatToString(RadiusMetres)| <= 21 by {
      assert JsNumber.NatToString(RadiusMetres) == "15000";
    }
    JsNumber.IntegerToString(RadiusMetres);
  }

  /**
   * Each parameter of the query reads back as written, the radius as its plain digits;
   * `my` is present only when asked for.
   */
  lemma QueryParams(lat: JsNumber.Decimal, lng: JsNumber.Decimal, my: bool)
    ensures var q := Query(lat, lng, my);
      Param(q, "lat") == Some(JsNumber.NumberToString(JsNumber.Finite(lat))) &&
      Param(q, "lng") == Some(JsNumber.NumberToString(JsNumber.Finite(lng))) &&
      Param(q, "radius_m") == Some(JsNumber.NatToString(RadiusMetres)) &&
      Param(q, "my") == if my then Some("true") else None
  {
    var q := Query(lat, lng, my);
    RadiusText();
    assert q[0].0 == "lat" && q[1].0 == "lng" && q[2].0 == "radius_m";
    assert "lat" != "lng" by { assert "lat"[1] != "lng"[1]; }
    assert "my" != "lat" && "my" != "lng" && "my" != "radius_m" by { assert "my"[0] == 'm'; }
    assert "radius_m" != "lat" && "radius_m" != "lng" by { assert "radius_m"[0] == 'r'; }
    assert Param(q, "lng") == ParamFrom(q, "lng", 1);
    assert Param(q, "radius_m") == ParamFrom(q, "radius_m", 1) == ParamFrom(q, "radius_m", 2);
    assert Param(q, "my") == ParamFrom(q, "my", 1) == ParamFrom(q, "my", 2) == ParamFrom(q, "my", 3);
    if my {
      assert q[3] == ("my", "true");
    } else {
      assert |q| == 3;
    }
  }

  /** The nearby route reads the map's radius as 15000 m, inside its clamp, and its `my` flag as sent. */
  lemma {:induction false} QueryReadByRoute(lat: JsNumber.Decimal, lng: JsNumber.Decimal, my: bool)
    ensures var q := Query(lat, lng, my);
      NearbyV2.ClampRadius(NearbyV2.ParseNumber(Param(q, "radius_m"), NearbyV2.DefaultRadius)) ==
        JsNumber.Finite(JsNumber.Decimal(RadiusMetres, 0)) &&
      NearbyV2.ParseBool(Param(q, "my")) == my
  {
    QueryParams(lat, lng, my);
    assert RadiusMetres < JsNumber.OverflowThreshold by {
      assert JsNumber.OverflowThreshold > 1000000;
    }
    NearbyV2.ParseNumberOfDigits(RadiusMetres, [], NearbyV2.DefaultRadius);
    assert JsNumber.NatToString(RadiusMetres) + [] == JsNumber.NatToString(RadiusMetres);
    NearbyV2.ClampRadiusBounds(JsNumber.Decimal(RadiusMetres, 0));
    JsNumber.ValueOfInt(RadiusMetres);
  }

  /** How a search ended: with a reply, aborted by a newer search, or with another error. */
  datatype FetchResult = Answered(reply: HttpReply) | Aborted | Threw

  /**
   * The parties after a search: an OK reply replaces them with its list (an empty one
   * when the body is not an array), a non-OK reply keeps them, an abort keeps them, and
   * any other failure (including a body that is not JSON) clears them.
   */
  function FetchedParties(prior: seq<Json>, result: FetchResult): (r: seq<Json>)
    ensures result.Aborted? ==> r == prior
    ensures result.Threw? ==> r == []
    ensures result.Answered? && !IsOkStatus(result.reply.status) ==> r == prior
    ensures result.Answered? && IsOkStatus(result.reply.status) ==>
      r == if result.reply.body.Some? && result.reply.body.value.JArray? then result.reply.body.value.items else []
  {
    match result
    case Aborted => prior
    case Threw => []
    case Answered(reply) =>
      if !IsOkStatus(reply.status) then prior
      else if reply.body.None? then []
      else if reply.body.value.JArray? then reply.body.value.items
      else []
  }

  class MapView {
    const my: bool
    var centreLat: JsNumber.Decimal
    var centreLng: JsNumber.Decimal
    var zoom: JsNumber.Decimal
    var lastFetch: Option<LastFetch>
    var parties: seq<Json>
    var loading: bool

    /** The map opens on Moscow (the value the nearby route's dev mode uses too) at zoom 12, loading. */
    constructor(my: bool)
      ensures this.my == my && centreLat == NearbyV22.MoscowLat && centreLng == NearbyV22.MoscowLng
      ensures zoom == InitialZoom && lastFetch.None? && parties == [] && loading
    {
      this.my := my;
      centreLat := NearbyV22.MoscowLat;
      centreLng := NearbyV22.MoscowLng;
      zoom := InitialZoom;
      lastFetch := None;
      parties := [];
      loading := true;
    }

    /** The last search was made from the current centre and zoom. */
    predicate Synced()
      reads this
    {
      lastFetch == Some(LastFetch(centreLat, centreLng, zoom))
    }

    /** `handleBoundsChange`. */
    method BoundsChange(e: BoundsEvent, distance: Distance)
      modifies this
      ensures parties == old(parties) && loading == old(loading)
      ensures var usable := e.hasGetter && e.newCenter.Some? && |e.newCenter.value| >= 2;
        if usable && Moves(old(lastFetch), e.newCenter.value[0], e.newCenter.value[1], e.newZoom, distance) then
          centreLat == e.newCenter.value[0] && centreLng == e.newCenter.value[1] &&
          zoom == (if e.newZoom.Some? then e.newZoom.value else old(zoom)) && Synced()
        else
          centreLat == old(centreLat) && centreLng == old(centreLng) && zoom == old(zoom) && lastFetch == old(lastFetch)
    {
      if !e.hasGetter {
        return;
      }
      if e.newCenter.None? || |e.newCenter.value| < 2 {
        return;
      }
      var lat := e.newCenter.value[0];
      var lng := e.newCenter.value[1];
      if Moves(lastFetch, lat, lng, e.newZoom, distance) {
        var z := if e.newZoom.Some? then e.newZoom.value else zoom;
        centreLat, centreLng := lat, lng;
        zoom := z;
        lastFetch := Some(LastFetch(lat, lng, z));
      }
    }

    /**
     * The effect on a new centre: `fetchParties` for it, then the search position is
     * recorded.  Returns the query sent.
     */
    method Search(result: FetchResult) returns (query: seq<(string, string)>)
      modifies this
      ensures query == Query(centreLat, centreLng, my)
      ensures centreLat == old(centreLat) && centreLng == old(centreLng) && zoom == old(zoom)
      ensures parties == FetchedParties(old(parties), result) && !loading && Synced()
    {
      query := Query(centreLat, centreLng, my);
      match result {
        case Aborted =>
        case Threw =>
          parties := [];
        case Answered(reply) =>
          if IsOkStatus(reply.status) {
            if reply.body.None? {
              parties := [];
            } else if reply.body.value.JArray? {
              parties := reply.body.value.items;
            } else {
              parties := [];
            }
          }
      }
      loading := false;
      lastFetch := Some(LastFetch(centreLat, centreLng, zoom));
    }
  }

  /**
   * The map shows what the nearby route lists: a successful call's parties, none for
   * a non-list result, and an unauthenticated request keeps what was shown.
   */
  lemma ShowsRouteList(prior: seq<Json>, env: NearbyV2.NearbyEnv)
    ensures var resp := NearbyV2.Get(env).response;
      var shown := FetchedParties(prior, Answered(HttpReply(resp.status, Some(resp.body))));
      (env.user.None? ==> shown == prior) &&
      (env.user.Some? && NearbyV2.Get(env).called.Some? && env.rpc.Ok? ==>
        shown == if env.rpc.value.JArray? then env.rpc.value.items else [])
  {
    if env.user.Some? && NearbyV2.Get(env).called.Some? && env.rpc.Ok? {
      NearbyV2.GetListsParties(env);
    }
  }
}
