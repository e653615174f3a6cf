# GUI Weather App — the data-shaping layer in Dafny

The application (`main.py`) is a tkinter window that shows the current weather
and a seven-day forecast for a city, using two calls to the OpenWeather API.
Nearly all of it is widget and graph code. Between the provider responses and the
widgets sits a small layer that turns payloads into display data. This project
models that layer and proves properties about it:

- **Retrieval** — `CurrentWeather.get_weather` and `WeekForecast.get_forecast`.
  The network is a parameter: each call receives the outcome its request had.
  These are any requests ConnectionError (a refused connection, a DNS failure,
  an SSL or proxy error), a connect timeout, a read timeout, or a
  received payload. The class `WeekForecast` holds the fields the readers
  assign: city, current payload, latitude, longitude and seven-day payload.
- **Series** — `current_day_temps` (every third hourly entry up to index 24,
  stored in an insertion-ordered dict) and `Seven_days_forecast` (one record per
  `daily[1:]` element).
- **Conditions** — the ordered `weather_images` table, the colours of
  `images_config`, and the two searches over the table. The current view needs
  both labels in one row. The weekly view, because of Python operator
  precedence, only needs the description.
- **Clock** — the `"%I:%M %p"` clock strings and the closed daytime test
  sunrise ≤ now ≤ sunset, evaluated as Python's chained comparison: the
  sunset string is parsed only when sunrise ≤ now.
- **Display** — the icon path and colours of `current_weather_details`. The
  day or night directory is inserted into the split path. Also the weekly
  records of `week_forecast_details`, the GMT offset label and the country line.
- **App** — the city-name check of `Search_Weather` and `location_verify`, and
  the `Search_Weather` handler as a class over the entry text, the searched
  name, the last status code and the readers.
- **Strings** and **Wrappers** — Python's `split`, `join`, `list.insert`,
  `upper`, `strip` and `isalpha`, and the Option/Result types.

Where Python raises, the model returns an error value. `Exit.Raised` stands for
an exception escaping `get_forecast`. `Failure(UnrecognizedCondition)` stands for
the unbound `current_image` / `img_path`. `Failure(MalformedTime)` stands for a
`strptime` ValueError. The `Error` type of these failures is declared in
**Display**, where they arise.

The table searches and the display methods take the table as a parameter, as
the application reads it from `self.weather_images`. The facts about the
application's own table are separate lemmas: `Conditions.TableShape`,
`Conditions.CloudsRows`, `Conditions.FreezingRainCurrent`,
`Conditions.FreezingRainWeek`, `Display.AppTablesValid` and `Display.AppIcons`.

## Model

| member | source | states |
|---|---|---|
| Retrieval.StatusOf | main.py:23-43 | code 1 exactly for any requests ConnectionError (refused connection, DNS failure, SSL or proxy error) or a connect timeout, 2 exactly for a read timeout, 3 exactly for a payload without `coord`/`lat`/`lon`, 0 exactly for a payload with all three |
| Retrieval.WeekForecast.GetWeather | main.py:23-43 | returns `StatusOf`; records the city; keeps the payload of any answered request; sets the latitude when `coord.lat` exists and the longitude only when both exist; leaves the forecast field alone |
| Retrieval.WeekForecast.GetForecast | main.py:110-124 | a nonzero code comes back unchanged with the forecast field untouched; after code 0 the forecast is stored and 0 returned, or the unguarded request raises |
| Series.Put | main.py:146 | `d[k] = v` keeps the dict well formed: a new key goes last, an existing key keeps its place and takes the new value |
| Series.FromPairsWellFormed | main.py:135-146 | a dict built by successive assignments is well formed |
| Series.FromPairsKeys | main.py:135-146 | with distinct keys the dict lists every key once, in assignment order |
| Series.FromPairsValues | main.py:135-146 | with distinct keys each key maps to its own pair's value |
| Series.SampledAt | main.py:136-138 | the k-th kept hourly entry is entry 3k, and there are `KeptCount` of them |
| Series.SampledIsKeptIndices | main.py:136-146 | an index is kept exactly when it is ≤ 24 and a multiple of 3; at most 9 points, exactly 9 once there are 25 entries |
| Series.SampledIgnoresTail | main.py:137 | entries after index 24 never affect the series |
| Series.CurrentDayTemps | main.py:127-148 | the loop with `break` returns the dict built from the kept entries' labels and temperatures |
| Series.HourlyTempsContents | main.py:135-148 | with distinct labels the dict has `KeptCount` keys; key k is the label of entry 3k and maps to its temperature |
| Series.SevenDaysForecast | main.py:184-207 | length `len(daily) - 1`; record k comes from `daily[k+1]`; `Temp` equals `Day:`; name and description copied |
| Conditions.TableShape | main.py:224-260 | eight rows; every icon path is `./assets/<file>` with no '/' in the file name, and every path has colours configured |
| Conditions.CurrentFrom | main.py:444-448 | the row the current search picks from a start index on lies between that index and the end of the table |
| Conditions.WeekFrom | main.py:714-718 | the row the weekly search picks from a start index on lies between that index and the end of the table |
| Conditions.CurrentFromFirst | main.py:444-448 | the current search returns the first row listing both labels, and None only when no row does |
| Conditions.WeekFromFirst | main.py:714-718 | the weekly search returns the first row whose labels hold the description (for a non-empty group), and None only when there is none |
| Conditions.CurrentMatchCoversTable | main.py:444-448 | every pair one row lists finds that row or an earlier one |
| Conditions.WeekMatchNoLater | main.py:714-718 | where the current search succeeds for a non-empty group, the weekly search succeeds too, never on a later row |
| Conditions.WeekFromIgnoresGroup | main.py:715 | from any start index, the weekly search gives the same row for any two non-empty groups |
| Conditions.WeekMatchIgnoresGroup | main.py:715 | the weekly search ignores the group's value, and never matches with an empty group |
| Conditions.CloudsRows | main.py:227-229 | "few clouds" selects the clear-sky row; "broken clouds" and "overcast clouds" select the cloudy row |
| Conditions.FreezingRainCurrent | main.py:444-448 | the current view has no icon for group "Rain" with description "freezing rain" |
| Conditions.FreezingRainWeek | main.py:714-718 | the weekly view shows the snow icon for the same pair |
| Clock.Parse12 | main.py:452-453 | a parsed string has the fixed `HH:MM AM/PM` shape; the value is before noon exactly when the marker is AM |
| Clock.ParseReading | main.py:452-453 | a well-formed reading parses to the time of day it stands for |
| Clock.ParseFormat | main.py:452-453 | parsing a formatted time of day gives it back |
| Clock.FormatClockValue | main.py:452-453 | formatting a reading's value writes back its hour, minutes and half of the day |
| Clock.FormatParse | main.py:452-453 | every parsable string is exactly the formatting of its value |
| Clock.DaytimeOf | main.py:452-453 | defined exactly when sunrise and now parse and, if sunrise ≤ now, sunset parses too; then true exactly when sunrise ≤ now ≤ sunset |
| Clock.BeforeSunriseIgnoresSunset | main.py:452-453 | when now is before sunrise the result is "night" whatever the sunset string is, parsable or not |
| Clock.DaytimeOnFormattedTimes | main.py:452-453 | on formatted clock strings the test is the closed interval, both ends included |
| Strings.Split | main.py:449 | at least one piece, and no piece holds the separator |
| Strings.Join | main.py:462 | the joined string starts with the first piece, followed by the separator when there are more pieces; no pieces join to "" |
| Strings.JoinSplit | main.py:449-462 | joining the pieces of a split gives the string back |
| Strings.SplitWithoutSeparator | main.py:449 | a string without the separator splits into itself |
| Strings.SplitAfterPiece | main.py:449 | a separator-free piece followed by the separator splits off as the first piece |
| Strings.SplitJoin | main.py:449-462 | splitting the join of one or more separator-free pieces gives the pieces back |
| Strings.Insert | main.py:454-458 | `list.insert`: one longer; the new element at the index, the rest shifted; appended past the end |
| Strings.TrimLeft | main.py:1534 | the longest suffix not starting with whitespace; only whitespace dropped |
| Strings.TrimRight | main.py:1534 | the longest prefix not ending with whitespace; only whitespace dropped |
| Strings.Strip | main.py:1534 | `strip` gives a string no longer than its input with no whitespace at either end |
| Strings.StripIsTrimmedSlice | main.py:1534 | `strip` keeps one contiguous run of the string and drops only whitespace around it |
| Strings.Upper | main.py:1533 | `upper` keeps the length, turns each lower-case letter into its own capital, leaves no lower-case letter, keeps letters letters and leaves every other character as it was |
| Strings.IsAlpha | main.py:1535 | an alphabetic string is non-empty and holds no space, hyphen or apostrophe |
| Display.VariantPath | main.py:449-462 | splitting the current view's icon path again gives the split path with the day or night directory at index 2 |
| Display.WeekIconPath | main.py:716-717 | the weekly icon path splits into ".", the path's directory piece, "day" and the path's file piece |
| Display.AssetParts | main.py:449 | `./assets/<file>` splits into ".", "assets" and the file name |
| Display.AppTablesValid | main.py:224-260 | every icon of the application's table has colours and a directory part |
| Display.AssetVariant | main.py:449-462 | inserting the variant at index 2 and joining gives `./assets/<variant>/<file>` |
| Display.AssetIcons | main.py:449-462 | the current icons of `./assets/<file>` are `./assets/day/<file>` and `./assets/night/<file>`; the weekly icon is the day one |
| Display.AppIcons | main.py:224-246 | on the application's table the current icon is the day or night variant of the row's file, and the weekly icon equals the day variant |
| Display.CurrentWeatherLook | main.py:444-462 | no fitting row is an error; a clock string that the chained comparison parses and rejects is an error, a malformed sunset string is not an error when now is before sunrise (it is never parsed); otherwise the first fitting row's icon with the day or night directory inserted, its colour pair `[2]` or `[3]`, and the daytime flag |
| Display.WeekRow | main.py:711-718 | the row whose icon the weekly loop holds is a row of the table |
| Display.WeekRowDefined | main.py:711-718 | once the first day fits a row, every later day has an icon |
| Display.WeekRowFallsBack | main.py:711-718 | a day that fits no row shows the icon of the last earlier day that fitted one |
| Display.WeekRowUndefined | main.py:711-718 | with no fitting day so far there is no icon |
| Display.WeekForecastDetails | main.py:703-732 | fails exactly when the first day fits no row; otherwise one detail per record, in order; only record 0's date becomes "Tomorrow"; every other field kept; the weekly icon; the same background colour for all |
| Display.OffsetLabel | main.py:541 | for an offset of two or more characters, ':' goes before the last two characters, and removing it gives the offset back; a shorter one gets ':' in front |
| Display.OffsetLabelOfZone | main.py:541 | a five-character offset such as `+0530` becomes `+05:30` |
| Display.CountryLabel | main.py:548-551 | the country alone exactly when it holds a space or has at least 10 characters, otherwise "country, region"; it always starts with the country |
| App.CityNameAccepted | main.py:1535 | an accepted name is never empty |
| App.RejectionCharacterised | main.py:1535 | a name is refused exactly when it holds no space, hyphen or apostrophe and is empty or holds a non-letter |
| App.UpperKeepsVerdict | main.py:1533-1535 | upper-casing never changes the verdict |
| App.BlankEntryRejected | main.py:1533-1538 | an entry of whitespace only, the empty one included, is refused |
| App.WeatherApp.SearchWeather | main.py:1527-1583 | the searched name is the stripped upper-cased entry; a refused name clears the entry and makes no request; otherwise the outcome and forecast are those of `get_forecast`, the code is recorded, and code 3 clears the entry; the reader's payload, latitude and longitude are those `get_weather` leaves |

## Left out

- Other exceptions of the first request escape `get_weather` in Python, such as TooManyRedirects or a body that `.json()` cannot decode; the model's `Retrieval.Response` has no such outcome.
- HTTP requests and JSON decoding are left out: each request is an argument holding its outcome, and each payload holds only the fields the core reads.
- `datetime.fromtimestamp`/`strftime`, `pytz` and `countryinfo` are left out: date and time labels are functions of the timestamp that `Series.CurrentDayTemps` and `Series.SevenDaysForecast` receive as arguments.
- The minute-level clock strings fed to the daytime test come from code that is not part of this model (`current_time`, `current_sun_time`). The sunrise and sunset strings are formatted in the machine's local zone, while the current time uses the city's zone. The model just receives the three strings.
- Series.SevenDaysForecast: temperatures are unrounded `real`s; `round(…, 2)` and floating point are not modelled.
- Display.WeekForecastDetails: the layout entries (`Image pady`, `Frame ipadx`, `Image size`) are not modelled. Neither is the `images_config` lookup that computes them. A table whose paths lack colours would raise KeyError in Python.
- Display.CurrentWeatherLook: the layout entries and the weather fields copied into `current_details` (temperature, humidity, city and the rest) are not modelled; they are plain field reads.
- All tkinter, matplotlib and PIL code, `after()` timers, message boxes, `change_button_state`, `switch_layout`, the click handlers and the browser links are left out as UI.
- App.WeatherApp.SearchWeather: the frame building and refreshing after code 0, and the retry timer after code 2, belong to the UI and are not modelled.
- `location_verify` is left out apart from its name check, `App.CityNameAccepted`, which it shares with `Search_Weather`. Its request uses `get_weather`'s URL but tests `main.temp` instead of `coord`; its outcome drives message boxes, the settings entry and the `verified` flag that gates saving the default city (settings persistence, left out).
- Settings persistence to `./assets/*.txt` is left out as file I/O.
- Strings.IsAlpha, Strings.Upper and Strings.Strip are ASCII only; Python's Unicode letters, case mappings and whitespace are not modelled.
- Clock.Parse12 accepts only the fixed-width form `strftime("%I:%M %p")` writes. The `strptime` leniencies, such as one-digit hours and lower-case markers, are not modelled.
- Conditions.WeatherImages keeps each row's labels as a set, since the code only tests membership. The duplicate "thunderstorm" in the last row is therefore not visible.
- Inheritance of `WeekForecast` from `CurrentWeather` becomes one class holding both readers' fields, and the application window holds a `WeekForecast` instead of inheriting from it.
