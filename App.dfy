/**
 * The search handler of the application window (`Search_Weather`): the entry
 * is upper-cased and stripped, names that cannot be city names are refused
 * before any request, and an unknown city clears the entry again.
 */
module App {
  import opened Wrappers
  import opened Strings
  import opened Retrieval

  /**
   * The city-name check of `Search_Weather` and `location_verify`: all letters,
   * or holding a space, a hyphen or an apostrophe.
   */
  predicate CityNameAccepted(s: string): (accepted: bool)
    ensures accepted ==> s != []
  {
    IsAlpha(s) || ' ' in s || '-' in s || '\'' in s
  }

  /** A name is refused exactly when it holds none of the three marks and is empty or has a non-letter. */
  lemma RejectionCharacterised(s: string)
    ensures !CityNameAccepted(s) <==>
              && ' ' !in s && '-' !in s && '\'' !in s
              && (s == [] || exists k | 0 <= k < |s| :: !IsLetter(s[k]))
  {
  }

  /** Upper-casing never changes the verdict. */
  lemma UpperKeepsVerdict(s: string)
    ensures CityNameAccepted(Upper(s)) == CityNameAccepted(s)
  {
    var u := Upper(s);
    assert forall k | 0 <= k < |s| :: IsLetter(u[k]) == IsLetter(s[k]);
    forall c | c == ' ' || c == '-' || c == '\''
      ensures c in u <==> c in s
    {
      if c in u {
        var k :| 0 <= k < |u| && u[k] == c;
        assert s[k] == c;
      }
      if c in s {
        var k :| 0 <= k < |s| && s[k] == c;
        assert u[k] == c;
      }
    }
  }

  /** An entry of whitespace only, the empty entry included, is refused. */
  lemma BlankEntryRejected(entry: string)
    requires forall k | 0 <= k < |entry| :: IsSpace(entry[k])
    ensures !CityNameAccepted(Strip(Upper(entry)))
  {
    var u := Upper(entry);
    assert forall k | 0 <= k < |u| :: IsSpace(u[k]);
    StripIsTrimmedSlice(u);
    var i, j :| 0 <= i <= j <= |u| && Strip(u) == u[i..j];
  }

  /** How a search ended: refused before any request, or through `get_forecast`. */
  datatype SearchResult = InvalidName | Searched(exit: Exit)

  /**
   * The state `Search_Weather` reads and writes: the entry's text, the name
   * searched last, the last status code and the readers of the two calls.
   */
  class WeatherApp {
    var entry: string
    var searchCity: string
    var exitCode: Option<nat>
    const forecaster: WeekForecast

    constructor (initialCity: string)
      ensures entry == initialCity && searchCity == [] && exitCode == None
      ensures fresh(forecaster)
    {
      entry := initialCity;
      searchCity := [];
      exitCode := None;
      forecaster := new WeekForecast();
    }

    /**
     * `Search_Weather` with the outcomes the two requests would have. A refused
     * name clears the entry and leaves the readers untouched; otherwise the
     * search goes through `get_forecast`, and status 3 clears the entry.
     */
    method SearchWeather(reply: Response<CurrentPayload>, forecast: Response<ForecastPayload>)
      returns (result: SearchResult)
      modifies this, forecaster
      ensures searchCity == Strip(Upper(old(entry)))
      ensures result == InvalidName <==> !CityNameAccepted(searchCity)
      ensures result == InvalidName ==>
                && entry == [] && exitCode == old(exitCode)
                && unchanged(forecaster)
      ensures result.Searched? ==>
                && forecaster.currentJson == (if reply.Received? then Some(reply.body)
                                              else old(forecaster.currentJson))
                && forecaster.lat == (if reply.Received? && reply.body.coord.Some? && reply.body.coord.value.lat.Some?
                                      then reply.body.coord.value.lat else old(forecaster.lat))
                && forecaster.lon == (if reply.Received? && HasCoordinates(reply.body)
                                      then reply.body.coord.value.lon else old(forecaster.lon))
      ensures result.Searched? ==>
                var status := StatusOf(reply);
                && result.exit == (if status != Located then Returned(status)
                                   else if forecast.Received? then Returned(Located) else Raised)
                && exitCode == (if result.exit.Returned? then Some(result.exit.code) else old(exitCode))
                && entry == (if result.exit == Returned(UnknownCity) then [] else Upper(old(entry)))
                && forecaster.city == searchCity
                && forecaster.sevenDaysWeather == (if status == Located && forecast.Received?
                                                   then Some(forecast.body)
                                                   else old(forecaster.sevenDaysWeather))
    {
      entry := Upper(entry);
      searchCity := Strip(entry);
      if !CityNameAccepted(searchCity) {
        entry := [];
        return InvalidName;
      }
      var exit := forecaster.GetForecast(searchCity, reply, forecast);
      result := Searched(exit);
      if exit.Raised? {
        return;
      }
      exitCode := Some(exit.code);
      if exit.code == UnknownCity {
        entry := [];
      }
    }
  }
}
