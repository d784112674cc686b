/** lib/GrabWeather.js: the shape check applied to the upstream weather
    body, `formatWeatherData`, the `/active` projection and the two error
    fallbacks of `register`. */
module Weather {
  import opened Wrappers
  import opened Sequences

  /** A JSON field value as the formatter sees it; a missing field is
      `Undefined`. Numbers are integers here. */
  datatype JsonValue = Undefined | Null | Bool(b: bool) | Num(n: int) | Str(s: string)

  /** JavaScript truthiness of a field value. */
  predicate Truthy(v: JsonValue) {
    match v
    case Undefined => false
    case Null => false
    case Bool(b) => b
    case Num(n) => n != 0
    case Str(s) => s != ""
  }

  /** An upstream weather record, under its upstream field names. */
  datatype WeatherRecord = WeatherRecord(
    weatherName: JsonValue, weatherId: JsonValue, duration: JsonValue,
    startDurationUnix: JsonValue, endDurationUnix: JsonValue, icon: JsonValue,
    active: JsonValue)

  /** A record under the response's field names. */
  datatype WeatherView = WeatherView(
    name: JsonValue, id: JsonValue, duration: JsonValue,
    startTime: JsonValue, endTime: JsonValue, icon: JsonValue,
    active: JsonValue)

  /** A record in the `/active` response, which has no `active` field. */
  datatype ActiveEntry = ActiveEntry(
    name: JsonValue, id: JsonValue, duration: JsonValue,
    startTime: JsonValue, endTime: JsonValue, icon: JsonValue)

  /** The upstream body after `JSON.parse`: unparsable, the value `null`, or
      an object whose `weather` field is an array of records (`Some`) or
      anything else, including absent (`None`). */
  datatype ParsedBody = Unparsable(detail: string) | NullBody | Body(weather: Option<seq<WeatherRecord>>)

  /** What the upstream request produced: a transport failure or timeout
      with its message, or a complete body. */
  datatype Upstream = TransportFailed(message: string) | TimedOut | Responded(body: ParsedBody)

  const ParsePrefix: string := "Failed to parse weather data: "

  /** `fetchWeatherData`: the weather array of a well-formed body, or the
      message of the error it rejects with. */
  function FetchWeather(upstream: Upstream): (r: Result<seq<WeatherRecord>, string>)
    ensures r.Success? <==> upstream.Responded? && upstream.body.Body? && upstream.body.weather.Some?
    ensures r.Success? ==> r.value == upstream.body.weather.value
    ensures upstream == Responded(Body(None)) ==> r == Failure(ParsePrefix + "Invalid weather data structure")
    ensures upstream.TimedOut? ==> r == Failure("Weather request timeout")
    ensures upstream.Responded? && r.Failure? ==> ParsePrefix <= r.error
  {
    match upstream
    case TransportFailed(message) => Failure(message)
    case TimedOut => Failure("Weather request timeout")
    case Responded(body) =>
      match body
      case Unparsable(detail) => Failure(ParsePrefix + detail)
      case NullBody => Failure(ParsePrefix + "Cannot read properties of null (reading 'weather')")
      case Body(weather) =>
        if weather.None? then Failure(ParsePrefix + "Invalid weather data structure")
        else Success(weather.value)
  }

  predicate IsActive(w: WeatherRecord) {
    Truthy(w.active)
  }

  predicate IsInactive(w: WeatherRecord) {
    !Truthy(w.active)
  }

  /** The renaming `weather_name → name`, `weather_id → id`, `duration`,
      `start_duration_unix → start_time`, `end_duration_unix → end_time`,
      `icon`, `active`. */
  function View(w: WeatherRecord): WeatherView {
    WeatherView(w.weatherName, w.weatherId, w.duration, w.startDurationUnix,
                w.endDurationUnix, w.icon, w.active)
  }

  /** The renaming read backwards. */
  function Unview(v: WeatherView): WeatherRecord {
    WeatherRecord(v.name, v.id, v.duration, v.startTime, v.endTime, v.icon, v.active)
  }

  /** The renaming loses nothing: every field value is carried over. */
  lemma ViewRoundTrip(w: WeatherRecord, v: WeatherView)
    ensures Unview(View(w)) == w
    ensures View(Unview(v)) == v
  {
  }

  /** The `/active` renaming, which leaves out `active`. */
  function ActiveOf(w: WeatherRecord): ActiveEntry {
    ActiveEntry(w.weatherName, w.weatherId, w.duration, w.startDurationUnix,
                w.endDurationUnix, w.icon)
  }

  /** A response view with its `active` field dropped. */
  function StripActive(v: WeatherView): ActiveEntry {
    ActiveEntry(v.name, v.id, v.duration, v.startTime, v.endTime, v.icon)
  }

  datatype Summary = Summary(totalWeatherTypes: nat, activeWeatherCount: nat, inactiveWeatherCount: nat)

  datatype WeatherReport = WeatherReport(
    summary: Summary, activeWeather: seq<WeatherView>, allWeather: seq<WeatherView>,
    lastUpdated: string)

  /** `formatWeatherData`, with the ISO time of the call as a parameter. */
  function FormatWeatherData(weather: seq<WeatherRecord>, lastUpdated: string): (r: WeatherReport)
    ensures r.summary.totalWeatherTypes == |weather|
    ensures r.summary.activeWeatherCount + r.summary.inactiveWeatherCount == r.summary.totalWeatherTypes
    ensures r.summary.activeWeatherCount == |r.activeWeather|
    ensures Map(r.activeWeather, Unview) == Filter(weather, IsActive)
    ensures |r.allWeather| == |weather|
    ensures forall i :: 0 <= i < |weather| ==> Unview(r.allWeather[i]) == weather[i]
    ensures forall i :: 0 <= i < |r.activeWeather| ==> Truthy(r.activeWeather[i].active)
    ensures r.lastUpdated == lastUpdated
  {
    var active := Filter(weather, IsActive);
    var inactive := Filter(weather, IsInactive);
    FilterComplement(weather, IsActive, IsInactive);
    MapInverse(active, View, Unview);
    WeatherReport(
      Summary(|weather|, |active|, |inactive|),
      Map(active, View),
      Map(weather, View),
      lastUpdated)
  }

  /** `active_weather` is an order-preserving subsequence of `all_weather`,
      and holds every element of it whose `active` is truthy. */
  lemma ActiveWeatherIsSubsequence(weather: seq<WeatherRecord>, lastUpdated: string)
    ensures IsSubsequence(FormatWeatherData(weather, lastUpdated).activeWeather,
                          FormatWeatherData(weather, lastUpdated).allWeather)
    ensures forall v :: v in FormatWeatherData(weather, lastUpdated).activeWeather <==>
      v in FormatWeatherData(weather, lastUpdated).allWeather && Truthy(v.active)
  {
    var r := FormatWeatherData(weather, lastUpdated);
    var active := Filter(weather, IsActive);
    FilterIsSubsequence(weather, IsActive);
    MapSubsequence(active, weather, View);
    forall v
      ensures v in r.activeWeather <==> v in r.allWeather && Truthy(v.active)
    {
      FilterMembership(weather, IsActive, Unview(v));
      if v in r.allWeather {
        var i :| 0 <= i < |r.allWeather| && r.allWeather[i] == v;
        assert weather[i] == Unview(v);
      }
      if Unview(v) in active {
        var i :| 0 <= i < |active| && active[i] == Unview(v);
        assert r.activeWeather[i] == v;
      }
    }
  }

  datatype ActiveReport = ActiveReport(activeWeatherCount: nat, activeWeather: seq<ActiveEntry>, lastUpdated: string)

  /** The success body of `/api/GetWeather/active`. */
  function ActiveOnly(weather: seq<WeatherRecord>, lastUpdated: string): (r: ActiveReport)
    ensures r.activeWeatherCount == |r.activeWeather|
    ensures r.activeWeather == Map(Filter(weather, IsActive), ActiveOf)
    ensures r.lastUpdated == lastUpdated
  {
    var active := Filter(weather, IsActive);
    ActiveReport(|active|, Map(active, ActiveOf), lastUpdated)
  }

  /** The `/active` body lists the full report's active entries, in the same
      order and without their `active` field, and counts them the same. */
  lemma ActiveOnlyAgreesWithReport(weather: seq<WeatherRecord>, lastUpdated: string)
    ensures ActiveOnly(weather, lastUpdated).activeWeather ==
      Map(FormatWeatherData(weather, lastUpdated).activeWeather, StripActive)
    ensures ActiveOnly(weather, lastUpdated).activeWeatherCount ==
      FormatWeatherData(weather, lastUpdated).summary.activeWeatherCount
  {
    var r := FormatWeatherData(weather, lastUpdated);
    var a := ActiveOnly(weather, lastUpdated);
    var active := Filter(weather, IsActive);
    assert |r.activeWeather| == |active|;
    forall i | 0 <= i < |active|
      ensures a.activeWeather[i] == StripActive(r.activeWeather[i])
    {
      assert Unview(r.activeWeather[i]) == active[i];
    }
  }

  /** The two endpoint responses: success, or status 500 with the fallback
      body. */
  datatype WeatherResponse =
    | Report(report: WeatherReport)
    | Fallback(error: string, message: string, summary: Summary,
               activeWeather: seq<WeatherView>, allWeather: seq<WeatherView>,
               lastUpdated: string, status: string)

  datatype ActiveResponse =
    | ActiveOk(active: ActiveReport)
    | ActiveFailed(error: string, activeWeather: seq<ActiveEntry>, lastUpdated: string)

  /** `err.message || fallback`. */
  function ErrorText(message: string, fallback: string): (t: string)
    ensures t == message || (message == "" && t == fallback)
    ensures fallback != "" ==> t != ""
  {
    if message != "" then message else fallback
  }

  /** `GET /api/GetWeather`. */
  function GetWeather(upstream: Upstream, lastUpdated: string): (r: WeatherResponse)
    ensures r.Report? <==> FetchWeather(upstream).Success?
    ensures r.Report? ==> r.report == FormatWeatherData(FetchWeather(upstream).value, lastUpdated)
    ensures r.Fallback? ==>
      && r.summary == Summary(0, 0, 0)
      && r.activeWeather == [] && r.allWeather == []
      && r.message == "Weather service temporarily unavailable"
      && r.status == "error"
      && r.error != ""
  {
    match FetchWeather(upstream)
    case Success(weather) => Report(FormatWeatherData(weather, lastUpdated))
    case Failure(message) =>
      Fallback(ErrorText(message, "Failed to fetch weather data"),
               "Weather service temporarily unavailable",
               Summary(0, 0, 0), [], [], lastUpdated, "error")
  }

  /** `GET /api/GetWeather/active`. */
  function GetActiveWeather(upstream: Upstream, lastUpdated: string): (r: ActiveResponse)
    ensures r.ActiveOk? <==> FetchWeather(upstream).Success?
    ensures r.ActiveOk? ==> r.active == ActiveOnly(FetchWeather(upstream).value, lastUpdated)
    ensures r.ActiveFailed? ==> r.activeWeather == [] && r.error != ""
  {
    match FetchWeather(upstream)
    case Success(weather) => ActiveOk(ActiveOnly(weather, lastUpdated))
    case Failure(message) =>
      ActiveFailed(ErrorText(message, "Failed to fetch active weather data"), [], lastUpdated)
  }

  /** Both endpoints succeed or fail together on the same upstream outcome,
      and a body without a weather array never reaches the formatter. */
  lemma EndpointsAgree(upstream: Upstream, lastUpdated: string)
    ensures GetWeather(upstream, lastUpdated).Report? <==> GetActiveWeather(upstream, lastUpdated).ActiveOk?
    ensures upstream.Responded? && !upstream.body.Body? ==> GetWeather(upstream, lastUpdated).Fallback?
    ensures upstream == Responded(Body(None)) ==>
      GetWeather(upstream, lastUpdated).Fallback? &&
      GetWeather(upstream, lastUpdated).error == ParsePrefix + "Invalid weather data structure"
  {
  }
}
