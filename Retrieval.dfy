/**
 * The two provider calls of one search: current conditions by city name, then,
 * when that call located the city, the multi-day forecast by coordinates.
 * The network is a parameter: each call is given the outcome its request had.
 */
module Retrieval {
  import opened Wrappers

  /**
   * What `requests.get` gave. `ConnectFailed` is any requests ConnectionError
   * (a refused connection, a DNS failure, an SSL or proxy error). A connect
   * timeout is its own case because requests' ConnectTimeout is both a
   * ConnectionError and a Timeout.
   */
  datatype Response<P> =
    | ConnectFailed
    | ConnectTimedOut
    | ReadTimedOut
    | Received(body: P)

  /** The `coord` object of a current-conditions payload; a field may be absent. */
  datatype Coord = Coord(lat: Option<real>, lon: Option<real>)

  /**
   * A current-conditions payload; `coord` is absent when the city is unknown.
   * `Display.CurrentWeatherLook` receives the group and description as arguments.
   */
  datatype CurrentPayload = CurrentPayload(coord: Option<Coord>, group: string, description: string)

  /** One `hourly` element of the forecast payload: its timestamp and temperature. */
  datatype Hour = Hour(dt: int, temp: real)

  /** One `daily` element of the forecast payload. */
  datatype Day = Day(dt: int, dayTemp: real, nightTemp: real, group: string, description: string)

  /** The forecast payload; `Series` receives its `hourly` and `daily` lists as arguments. */
  datatype ForecastPayload = ForecastPayload(hourly: seq<Hour>, daily: seq<Day>)

  /** The status codes of a search. */
  const Located: nat := 0
  const NoConnection: nat := 1
  const TimedOut: nat := 2
  const UnknownCity: nat := 3

  predicate HasCoordinates(p: CurrentPayload)
  {
    p.coord.Some? && p.coord.value.lat.Some? && p.coord.value.lon.Some?
  }

  /** The code `get_weather` returns for a response. */
  function StatusOf(reply: Response<CurrentPayload>): (code: nat)
    ensures code <= 3
    ensures code == Located <==> reply.Received? && HasCoordinates(reply.body)
    ensures code == NoConnection <==> reply.ConnectFailed? || reply.ConnectTimedOut?
    ensures code == TimedOut <==> reply.ReadTimedOut?
    ensures code == UnknownCity <==> reply.Received? && !HasCoordinates(reply.body)
  {
    match reply
    case ConnectFailed => NoConnection
    case ConnectTimedOut => NoConnection
    case ReadTimedOut => TimedOut
    case Received(p) => if HasCoordinates(p) then Located else UnknownCity
  }

  /** How `get_forecast` ends: with a status code, or by raising out of an unguarded request. */
  datatype Exit = Returned(code: nat) | Raised

  /**
   * The state the two readers keep between calls. Each field is None until
   * the first call that assigns it, as a Python attribute is missing until set.
   */
  class WeekForecast {
    var city: string
    var currentJson: Option<CurrentPayload>
    var lat: Option<real>
    var lon: Option<real>
    var sevenDaysWeather: Option<ForecastPayload>

    constructor ()
      ensures city == [] && currentJson == None && lat == None && lon == None
      ensures sevenDaysWeather == None
    {
      city := [];
      currentJson := None;
      lat := None;
      lon := None;
      sevenDaysWeather := None;
    }

    /**
     * `get_weather`: records the city, keeps the payload of any answered request
     * and reads latitude, then longitude, stopping at the first missing key.
     */
    method GetWeather(name: string, reply: Response<CurrentPayload>) returns (code: nat)
      modifies this
      ensures code == StatusOf(reply)
      ensures city == name
      ensures currentJson == (if reply.Received? then Some(reply.body) else old(currentJson))
      ensures lat == (if reply.Received? && reply.body.coord.Some? && reply.body.coord.value.lat.Some?
                      then reply.body.coord.value.lat else old(lat))
      ensures lon == (if reply.Received? && HasCoordinates(reply.body)
                      then reply.body.coord.value.lon else old(lon))
      ensures code == Located ==> lat.Some? && lon.Some?
      ensures sevenDaysWeather == old(sevenDaysWeather)
    {
      city := name;
      match reply {
        case ConnectFailed =>
          return NoConnection;
        case ConnectTimedOut =>
          return NoConnection;
        case ReadTimedOut =>
          return TimedOut;
        case Received(p) =>
          currentJson := Some(p);
          if p.coord.None? || p.coord.value.lat.None? {
            return UnknownCity;
          }
          lat := p.coord.value.lat;
          if p.coord.value.lon.None? {
            return UnknownCity;
          }
          lon := p.coord.value.lon;
          return Located;
      }
    }

    /**
     * `get_forecast`: the forecast request is made only after `get_weather`
     * returned 0; any other code comes back unchanged with the forecast untouched.
     * The forecast request itself is not guarded, so its failure escapes.
     */
    method GetForecast(name: string, reply: Response<CurrentPayload>, forecast: Response<ForecastPayload>)
      returns (exit: Exit)
      modifies this
      ensures StatusOf(reply) != Located ==> exit == Returned(StatusOf(reply))
      ensures StatusOf(reply) == Located ==> exit == (if forecast.Received? then Returned(Located) else Raised)
      ensures sevenDaysWeather == (if StatusOf(reply) == Located && forecast.Received?
                                   then Some(forecast.body) else old(sevenDaysWeather))
      ensures city == name
      ensures currentJson == (if reply.Received? then Some(reply.body) else old(currentJson))
      ensures lat == (if reply.Received? && reply.body.coord.Some? && reply.body.coord.value.lat.Some?
                      then reply.body.coord.value.lat else old(lat))
      ensures lon == (if reply.Received? && HasCoordinates(reply.body)
                      then reply.body.coord.value.lon else old(lon))
    {
      var status := GetWeather(name, reply);
      if status == Located {
        if !forecast.Received? {
          return Raised;
        }
        sevenDaysWeather := Some(forecast.body);
        return Returned(Located);
      } else {
        return Returned(status);
      }
    }
  }
}
