/**
 * The condition table of the application (`weather_images`, `images_config`) and
 * the two ways it is searched. The table is ordered; a search takes the first
 * row that fits. Labels are compared exactly, case included.
 */
module Conditions {
  import opened Wrappers

  /**
   * One row of `weather_images`: an icon path and the labels it stands for.
   * The application only asks whether a label is `in` a row's list, so the
   * list is kept as a set (its repeated "thunderstorm" counts once).
   */
  datatype ImageEntry = ImageEntry(path: string, labels: set<string>)

  /** A background colour and a lighter accent colour. */
  datatype ColourPair = ColourPair(bg: string, light: string)

  /** The colour part of one `images_config` row: element [2] by day, [3] by night. */
  datatype Colours = Colours(day: ColourPair, night: ColourPair)

  /** Where the icons live: `./assets/<file>`. */
  function Asset(file: string): (path: string)
  {
    "./" + "assets" + "/" + file
  }

  /** `weather_images`, in its declaration order. */
  const WeatherImages: seq<ImageEntry> := [
    ImageEntry(Asset("sunny.png"), {"Clear", "clear sky"}),
    ImageEntry(Asset("clear_sky.png"), {"Clouds", "few clouds"}),
    ImageEntry(Asset("cloudy.png"), {"Clouds", "scattered clouds", "broken clouds", "overcast clouds"}),
    ImageEntry(Asset("foggy.png"), {"Mist", "Smoke", "smoke", "Haze", "haze", "Fog", "mist", "fog"}),
    ImageEntry(Asset("snow.png"), {"Snow", "freezing rain", "light snow", "Heavy snow", "Steet",
      "Light shower sleet", "Shower sleet", "Light rain and snow", "Rain and snow", "Light shower snow",
      "Shower snow", "Heavy shower snow", "rain and snow"}),
    ImageEntry(Asset("windy.png"), {"Dust", "sand/ dust whirls", "Sand", "sand", "dust", "Ash", "Squall",
      "squalls", "Tornado", "tornado"}),
    ImageEntry(Asset("rainy.png"), {"Drizzle", "light intensity drizzle", "drizzle", "heavy intensity drizzle",
      "light intensity drizzle rain", "drizzle rain", "heavy intensity drizzle rain", "shower rain and drizzle",
      "heavy shower rain and drizzle", "shower drizzle", "Rain", "light rain", "moderate rain",
      "heavy intensity rain", "very heavy rain", "extreme rain", "light intensity shower rain", "shower rain",
      "heavy intensity shower rain", "ragged shower rain"}),
    ImageEntry(Asset("thunderstorm.png"), {"Thunderstorm", "thunderstorm with light rain", "thunderstorm with rain",
      "thunderstorm with heavy rain", "light thunderstorm", "thunderstorm", "thunderstorm", "heavy thunderstorm",
      "ragged thunderstorm", "thunderstorm with light drizzle", "thunderstorm with drizzle",
      "thunderstorm with heavy drizzle"})
  ]

  /** The file part of each row's path, in table order. */
  const ImageFiles: seq<string> := ["sunny.png", "clear_sky.png", "cloudy.png", "foggy.png", "snow.png",
    "windy.png", "rainy.png", "thunderstorm.png"]

  /** The day and night colours of `images_config`, keyed like `weather_images`. */
  const ImagesConfig: map<string, Colours> := map[
    Asset("sunny.png") := Colours(ColourPair("#F5B041", "#FFE082"), ColourPair("#55555D", "#929297")),
    Asset("clear_sky.png") := Colours(ColourPair("#03A9F4", "#81D4FA"), ColourPair("#21618C", "#2980B9")),
    Asset("cloudy.png") := Colours(ColourPair("#308DA5", "#87ceeb"), ColourPair("#308DA5", "#87ceeb")),
    Asset("foggy.png") := Colours(ColourPair("#48C9B0", "#A3E4D7"), ColourPair("#E3915C", "#EDBB99")),
    Asset("snow.png") := Colours(ColourPair("#00BCD4", "#80DEEA"), ColourPair("#00BCD4", "#80DEEA")),
    Asset("windy.png") := Colours(ColourPair("#34495E", "#AEB6BF"), ColourPair("#34495E", "#AEB6BF")),
    Asset("rainy.png") := Colours(ColourPair("#1976D2", "#64B5F6"), ColourPair("#1976D2", "#64B5F6")),
    Asset("thunderstorm.png") := Colours(ColourPair("#2980B9", "#7FB3D5"), ColourPair("#2980B9", "#7FB3D5"))
  ]

  /** Every row is `./assets/<file>` with a file name free of '/', and has its colours configured. */
  lemma TableShape()
    ensures |WeatherImages| == |ImageFiles| == 8
    ensures forall k | 0 <= k < 8 :: WeatherImages[k].path == Asset(ImageFiles[k])
    ensures forall k | 0 <= k < 8 :: '/' !in ImageFiles[k]
    ensures forall k | 0 <= k < 8 :: WeatherImages[k].path in ImagesConfig
  {
  }

  /** The current-conditions test: the row lists both the group and the description. */
  predicate ListsBoth(e: ImageEntry, group: string, description: string)
  {
    group in e.labels && description in e.labels
  }

  /**
   * The weekly test as Python reads `day["Name"] and day["Description"] in group`:
   * the group only has to be a non-empty string; the description must be listed.
   */
  predicate WeekFits(e: ImageEntry, name: string, description: string)
  {
    name != "" && description in e.labels
  }

  /** The first row of `table` from index `from` on that lists both labels, if any. */
  function CurrentFrom(table: seq<ImageEntry>, group: string, description: string, from: nat): (r: Option<nat>)
    decreases |table| - from
    ensures r.Some? ==> from <= r.value < |table|
  {
    if from >= |table| then None
    else if ListsBoth(table[from], group, description) then Some(from)
    else CurrentFrom(table, group, description, from + 1)
  }

  /** The current search returns the first fitting row from `from` on, and None only when none fits. */
  lemma {:induction false} CurrentFromFirst(table: seq<ImageEntry>, group: string, description: string, from: nat)
    decreases |table| - from
    ensures var r := CurrentFrom(table, group, description, from);
            && (r.Some? ==> ListsBoth(table[r.value], group, description))
            && (r.Some? ==> forall j | from <= j < r.value :: !ListsBoth(table[j], group, description))
            && (r.None? ==> forall j | from <= j < |table| :: !ListsBoth(table[j], group, description))
  {
    if from < |table| && !ListsBoth(table[from], group, description) {
      CurrentFromFirst(table, group, description, from + 1);
    }
  }

  /** The first row of `table` from index `from` on that passes the weekly test, if any. */
  function WeekFrom(table: seq<ImageEntry>, name: string, description: string, from: nat): (r: Option<nat>)
    decreases |table| - from
    ensures r.Some? ==> from <= r.value < |table|
  {
    if from >= |table| then None
    else if WeekFits(table[from], name, description) then Some(from)
    else WeekFrom(table, name, description, from + 1)
  }

  /** The weekly search returns the first fitting row from `from` on, and None only when none fits. */
  lemma {:induction false} WeekFromFirst(table: seq<ImageEntry>, name: string, description: string, from: nat)
    decreases |table| - from
    ensures var r := WeekFrom(table, name, description, from);
            && (r.Some? ==> WeekFits(table[r.value], name, description))
            && (r.Some? ==> forall j | from <= j < r.value :: !WeekFits(table[j], name, description))
            && (r.None? ==> forall j | from <= j < |table| :: !WeekFits(table[j], name, description))
  {
    if from < |table| && !WeekFits(table[from], name, description) {
      WeekFromFirst(table, name, description, from + 1);
    }
  }

  /** The row `current_weather_details` picks, or None where it has no icon. */
  function CurrentMatch(table: seq<ImageEntry>, group: string, description: string): (r: Option<nat>)
  {
    CurrentFrom(table, group, description, 0)
  }

  /** The row `week_forecast_details` picks for one day, or None. */
  function WeekMatch(table: seq<ImageEntry>, name: string, description: string): (r: Option<nat>)
  {
    WeekFrom(table, name, description, 0)
  }

  /**
   * The current classification succeeds on every pair one row lists, picking
   * that row or an earlier one.
   */
  lemma CurrentMatchCoversTable(table: seq<ImageEntry>, group: string, description: string, k: nat)
    requires k < |table|
    requires group in table[k].labels && description in table[k].labels
    ensures CurrentMatch(table, group, description).Some?
    ensures CurrentMatch(table, group, description).value <= k
  {
    assert ListsBoth(table[k], group, description);
    CurrentFromFirst(table, group, description, 0);
  }

  /**
   * Wherever the current classification finds a row for a non-empty group,
   * the weekly one finds a row too, never a later one.
   */
  lemma WeekMatchNoLater(table: seq<ImageEntry>, group: string, description: string)
    requires group != ""
    requires CurrentMatch(table, group, description).Some?
    ensures WeekMatch(table, group, description).Some?
    ensures WeekMatch(table, group, description).value <= CurrentMatch(table, group, description).value
  {
    CurrentFromFirst(table, group, description, 0);
    WeekFromFirst(table, group, description, 0);
    assert WeekFits(table[CurrentMatch(table, group, description).value], group, description);
  }

  /** The weekly classification ignores the group's value, except that an empty group never matches. */
  lemma {:induction false} WeekFromIgnoresGroup(table: seq<ImageEntry>, name: string, other: string,
                                               description: string, from: nat)
    requires name != "" && other != ""
    ensures WeekFrom(table, name, description, from) == WeekFrom(table, other, description, from)
    decreases |table| - from
  {
    if from < |table| {
      WeekFromIgnoresGroup(table, name, other, description, from + 1);
    }
  }

  lemma WeekMatchIgnoresGroup(table: seq<ImageEntry>, name: string, other: string, description: string)
    ensures name != "" && other != "" ==> WeekMatch(table, name, description) == WeekMatch(table, other, description)
    ensures WeekMatch(table, "", description) == None
  {
    if name != "" && other != "" {
      WeekFromIgnoresGroup(table, name, other, description, 0);
    }
    WeekFromFirst(table, "", description, 0);
  }

  /** Order decides for "Clouds": "few clouds" is the partly-cloudy row, the other cloud kinds the cloudy row. */
  lemma CloudsRows()
    ensures CurrentMatch(WeatherImages, "Clouds", "few clouds") == Some(1)
    ensures CurrentMatch(WeatherImages, "Clouds", "overcast clouds") == Some(2)
    ensures CurrentMatch(WeatherImages, "Clouds", "broken clouds") == Some(2)
  {
    assert ListsBoth(WeatherImages[1], "Clouds", "few clouds");
    assert ListsBoth(WeatherImages[2], "Clouds", "overcast clouds");
    assert ListsBoth(WeatherImages[2], "Clouds", "broken clouds");
  }

  /**
   * So the current view, which needs both labels in one row, has no icon for
   * the group "Rain" with the description "freezing rain".
   */
  lemma FreezingRainCurrent()
    ensures CurrentMatch(WeatherImages, "Rain", "freezing rain") == None
  {
    assert "Rain" !in WeatherImages[0].labels;
    assert "Rain" !in WeatherImages[1].labels;
    assert "Rain" !in WeatherImages[2].labels;
    assert "Rain" !in WeatherImages[3].labels;
    assert "Rain" !in WeatherImages[4].labels;
    assert "Rain" !in WeatherImages[5].labels;
    assert "freezing rain" !in WeatherImages[6].labels;
    assert "freezing rain" !in WeatherImages[7].labels;
  }

  /** The weekly view, which tests the description only, shows the snow icon for it. */
  lemma FreezingRainWeek()
    ensures WeekMatch(WeatherImages, "Rain", "freezing rain") == Some(4)
  {
    assert "freezing rain" !in WeatherImages[0].labels;
    assert "freezing rain" !in WeatherImages[1].labels;
    assert "freezing rain" !in WeatherImages[2].labels;
    assert "freezing rain" !in WeatherImages[3].labels;
    assert "freezing rain" in WeatherImages[4].labels;
  }
}
