/**
 * The display data built from the readers' results: the current icon, colours
 * and day/night flag (`current_weather_details`), the weekly records with their
 * icons (`week_forecast_details`), and two strings of the current-weather frame
 * (the GMT offset and the country line of `CW_Frame`).
 */
module Display {
  import opened Wrappers
  import opened Strings
  import opened Clock
  import opened Conditions
  import opened Series

  /** The ways the display layer fails where the application raises an exception. */
  datatype Error =
    | UnrecognizedCondition   // no row of the condition table matches
    | MalformedTime           // a time string that is compared is not of the form "HH:MM AM"

  /** `./assets/<file>` splits on '/' into ".", "assets" and the file name. */
  lemma AssetParts(file: string)
    requires '/' !in file
    ensures Split(Asset(file), '/') == [".", "assets", file]
  {
    assert Asset(file) == "." + ['/'] + ("assets" + ['/'] + file);
    SplitAfterPiece(".", '/', "assets" + ['/'] + file);
    SplitAfterPiece("assets", '/', file);
    SplitWithoutSeparator(file, '/');
  }

  /** Every icon path has a directory part, so that `raw_path[1]` exists. */
  predicate HasDirectories(table: seq<ImageEntry>)
  {
    forall k | 0 <= k < |table| :: |Split(table[k].path, '/')| >= 2
  }

  /** Every icon path has its colours configured, so `images_config[image]` exists. */
  predicate Configured(table: seq<ImageEntry>, config: map<string, Colours>)
  {
    forall k | 0 <= k < |table| :: table[k].path in config
  }

  /** What both views need of the application's tables. */
  predicate ValidTable(table: seq<ImageEntry>, config: map<string, Colours>)
  {
    HasDirectories(table) && Configured(table, config)
  }

  /** The application's own tables are valid. */
  lemma AppTablesValid()
    ensures ValidTable(WeatherImages, ImagesConfig)
  {
    TableShape();
    forall k | 0 <= k < |WeatherImages|
      ensures |Split(WeatherImages[k].path, '/')| >= 2
    {
      AssetParts(ImageFiles[k]);
    }
  }

  /** The current view's icon: `raw_path.insert(2, variant)` into the split path, joined again. */
  function VariantPath(path: string, variant: string): (p: string)
    ensures '/' !in variant ==> Split(p, '/') == Insert(Split(path, '/'), 2, variant)
  {
    var parts := Insert(Split(path, '/'), 2, variant);
    if '/' in variant then Join(parts, '/')
    else
      InsertKeepsSeparatorFree(Split(path, '/'), 2, variant, '/');
      SplitJoin(parts, '/');
      Join(parts, '/')
  }

  /** The weekly view's icon: `"./" + raw_path[1] + "/day/" + raw_path[-1]`. */
  function WeekIconPath(path: string): (p: string)
    requires |Split(path, '/')| >= 2
    ensures var rawPath := Split(path, '/');
            Split(p, '/') == [".", rawPath[1], "day", rawPath[|rawPath| - 1]]
  {
    var rawPath := Split(path, '/');
    var d := rawPath[1];
    var f := rawPath[|rawPath| - 1];
    assert "./" + d + "/day/" + f == "." + ['/'] + (d + ['/'] + ("day" + ['/'] + f));
    SplitAfterPiece(".", '/', d + ['/'] + ("day" + ['/'] + f));
    SplitAfterPiece(d, '/', "day" + ['/'] + f);
    SplitAfterPiece("day", '/', f);
    SplitWithoutSeparator(f, '/');
    "./" + d + "/day/" + f
  }

  /** For `./assets/<file>` the variant becomes a directory between `./assets` and the file. */
  lemma AssetVariant(file: string, variant: string)
    requires '/' !in file
    ensures VariantPath(Asset(file), variant) == "./assets/" + variant + "/" + file
  {
    AssetParts(file);
    var parts := Insert([".", "assets", file], 2, variant);
    assert parts == [".", "assets", variant, file];
    assert parts[1..] == ["assets", variant, file];
    assert parts[1..][1..] == [variant, file];
    assert parts[1..][1..][1..] == [file];
    assert Join([variant, file], '/') == variant + ['/'] + file;
    assert Join(["assets", variant, file], '/') == "assets" + ['/'] + (variant + ['/'] + file);
    assert Join(parts, '/') == "." + ['/'] + ("assets" + ['/'] + (variant + ['/'] + file));
  }

  /** The icons of `./assets/<file>`: by day and by night for the current view, the day one for the weekly view. */
  lemma AssetIcons(file: string)
    requires '/' !in file
    ensures VariantPath(Asset(file), "day") == "./assets/day/" + file
    ensures VariantPath(Asset(file), "night") == "./assets/night/" + file
    ensures |Split(Asset(file), '/')| >= 2
    ensures WeekIconPath(Asset(file)) == "./assets/day/" + file
  {
    AssetParts(file);
    AssetVariant(file, "day");
    AssetVariant(file, "night");
    assert "./assets/" + "day" + "/" + file == "./assets/day/" + file;
    assert "./assets/" + "night" + "/" + file == "./assets/night/" + file;
  }

  /**
   * On the application's table the current icon is `./assets/day/<file>` or
   * `./assets/night/<file>`, and the weekly icon of a row is its day icon.
   */
  lemma AppIcons(k: nat)
    requires k < |WeatherImages|
    ensures VariantPath(WeatherImages[k].path, "day") == "./assets/day/" + ImageFiles[k]
    ensures VariantPath(WeatherImages[k].path, "night") == "./assets/night/" + ImageFiles[k]
    ensures |Split(WeatherImages[k].path, '/')| >= 2
    ensures WeekIconPath(WeatherImages[k].path) == VariantPath(WeatherImages[k].path, "day")
  {
    TableShape();
    var file := ImageFiles[k];
    assert WeatherImages[k].path == Asset(file);
    AssetIcons(file);
  }

  /** What the current-weather frame takes from the classification. */
  datatype Look = Look(image: string, colours: ColourPair, daytime: bool)

  /**
   * The icon and colours of `current_weather_details`: the first row listing both
   * labels, then the day or night variant of its icon and colour pair. With no
   * such row, or with a time string `strptime` is given and rejects, Python
   * raises; sunset is read only when sunrise <= now.
   */
  method CurrentWeatherLook(table: seq<ImageEntry>, config: map<string, Colours>,
                            group: string, description: string,
                            sunrise: string, now: string, sunset: string) returns (r: Result<Look, Error>)
    requires Configured(table, config)
    ensures CurrentMatch(table, group, description).None? ==> r == Failure(UnrecognizedCondition)
    ensures (CurrentMatch(table, group, description).Some? && DaytimeOf(sunrise, now, sunset).None?)
              ==> r == Failure(MalformedTime)
    ensures CurrentMatch(table, group, description).Some? && DaytimeOf(sunrise, now, sunset).Some? ==>
              var path := table[CurrentMatch(table, group, description).value].path;
              var day := DaytimeOf(sunrise, now, sunset).value;
              && r.Success?
              && r.value.daytime == day
              && r.value.image == VariantPath(path, if day then "day" else "night")
              && r.value.colours == (if day then config[path].day else config[path].night)
  {
    var found: Option<nat> := None;
    var i := 0;
    while i < |table|
      invariant i <= |table|
      invariant forall j | 0 <= j < i :: !ListsBoth(table[j], group, description)
    {
      if group in table[i].labels && description in table[i].labels {
        found := Some(i);
        break;
      }
      i := i + 1;
    }
    CurrentFromFirst(table, group, description, 0);
    if found.None? {
      return Failure(UnrecognizedCondition);
    }
    assert found == CurrentMatch(table, group, description);
    var image := table[found.value].path;
    var rawPath := Split(image, '/');
    var daytime := DaytimeOf(sunrise, now, sunset);
    if daytime.None? {
      return Failure(MalformedTime);
    }
    var colours: ColourPair;
    if daytime.value {
      rawPath := Insert(rawPath, 2, "day");
      colours := config[image].day;
    } else {
      rawPath := Insert(rawPath, 2, "night");
      colours := config[image].night;
    }
    r := Success(Look(Join(rawPath, '/'), colours, daytime.value));
  }

  /** One element of the list `week_forecast_details` returns (layout entries left out). */
  datatype WeekDetail = WeekDetail(record: DayRecord, image: string, bg: string)

  /** The record as displayed: the first one is labelled "Tomorrow". */
  function Dated(record: DayRecord, i: nat): (r: DayRecord)
  {
    if i == 0 then record.(date := "Tomorrow") else record
  }

  /**
   * The row whose icon the weekly loop holds after day `k`: that day's row if
   * one fits, otherwise the row left over from an earlier day; None when no
   * day so far had one.
   */
  function WeekRow(table: seq<ImageEntry>, week: seq<DayRecord>, k: nat): (r: Option<nat>)
    requires k < |week|
    ensures r.Some? ==> r.value < |table|
  {
    match WeekMatch(table, week[k].name, week[k].description)
    case Some(j) => Some(j)
    case None => if k == 0 then None else WeekRow(table, week, k - 1)
  }

  /** The icon of `WeekRow`. */
  function WeekImage(table: seq<ImageEntry>, week: seq<DayRecord>, k: nat): (r: Option<string>)
    requires HasDirectories(table)
    requires k < |week|
  {
    match WeekRow(table, week, k)
    case Some(j) => Some(WeekIconPath(table[j].path))
    case None => None
  }

  /** Once the first day has an icon, every later day has one. */
  lemma {:induction false} WeekRowDefined(table: seq<ImageEntry>, week: seq<DayRecord>, k: nat)
    requires k < |week|
    requires WeekMatch(table, week[0].name, week[0].description).Some?
    ensures WeekRow(table, week, k).Some?
  {
    if k > 0 && WeekMatch(table, week[k].name, week[k].description).None? {
      WeekRowDefined(table, week, k - 1);
    }
  }

  /** Days that fit no row show the icon of the last day before them that fitted one. */
  lemma {:induction false} WeekRowFallsBack(table: seq<ImageEntry>, week: seq<DayRecord>, i: nat, k: nat)
    requires i <= k < |week|
    requires forall m | i < m <= k :: WeekMatch(table, week[m].name, week[m].description).None?
    ensures WeekRow(table, week, k) == WeekRow(table, week, i)
  {
    if i < k {
      WeekRowFallsBack(table, week, i, k - 1);
    }
  }

  /** Without any fitting day so far there is no icon. */
  lemma {:induction false} WeekRowUndefined(table: seq<ImageEntry>, week: seq<DayRecord>, k: nat)
    requires k < |week|
    requires forall m | 0 <= m <= k :: WeekMatch(table, week[m].name, week[m].description).None?
    ensures WeekRow(table, week, k).None?
  {
    if k > 0 {
      WeekRowUndefined(table, week, k - 1);
    }
  }

  /**
   * `week_forecast_details`: each record of `Seven_days_forecast` with its icon
   * and the current background colour; only the first record's date changes.
   * When no row fits the first day, `img_path` is unbound and Python raises.
   */
  method WeekForecastDetails(table: seq<ImageEntry>, week: seq<DayRecord>, bgColour: string)
    returns (r: Result<seq<WeekDetail>, Error>)
    requires HasDirectories(table)
    ensures r.Failure? <==> |week| > 0 && WeekMatch(table, week[0].name, week[0].description).None?
    ensures r.Failure? ==> r.error == UnrecognizedCondition
    ensures r.Success? ==> |r.value| == |week|
    ensures r.Success? ==> forall k | 0 <= k < |week| ::
              && WeekImage(table, week, k).Some?
              && r.value[k] == WeekDetail(Dated(week[k], k), WeekImage(table, week, k).value, bgColour)
  {
    var details: seq<WeekDetail> := [];
    var imgPath: Option<string> := None;
    var i := 0;
    while i < |week|
      invariant i <= |week| && |details| == i
      invariant i == 0 ==> imgPath.None?
      invariant i > 0 ==> WeekMatch(table, week[0].name, week[0].description).Some?
      invariant i > 0 ==> imgPath == WeekImage(table, week, i - 1)
      invariant forall k | 0 <= k < i ::
                  && WeekImage(table, week, k).Some?
                  && details[k] == WeekDetail(Dated(week[k], k), WeekImage(table, week, k).value, bgColour)
    {
      var day := week[i];
      var fit: Option<nat> := None;
      var j := 0;
      while j < |table|
        invariant j <= |table|
        invariant forall m | 0 <= m < j :: !WeekFits(table[m], day.name, day.description)
      {
        if day.name != "" && day.description in table[j].labels {
          var rawPath := Split(table[j].path, '/');
          imgPath := Some("./" + rawPath[1] + "/day/" + rawPath[|rawPath| - 1]);
          fit := Some(j);
          break;
        }
        j := j + 1;
      }
      WeekFromFirst(table, day.name, day.description, 0);
      assert fit == WeekMatch(table, day.name, day.description);
      assert imgPath == WeekImage(table, week, i);
      if imgPath.None? {
        return Failure(UnrecognizedCondition);
      }
      details := details + [WeekDetail(Dated(day, i), imgPath.value, bgColour)];
      i := i + 1;
    }
    r := Success(details);
  }

  /** The GMT label: the `%z` offset with ':' put before its last two characters. */
  function OffsetLabel(zone: string): (r: string)
    ensures |zone| >= 2 ==> |r| == |zone| + 1 && r[|r| - 3] == ':'
    ensures |zone| >= 2 ==> r[..|r| - 3] + r[|r| - 2..] == zone
    ensures |zone| < 2 ==> r == ":" + zone
  {
    if |zone| >= 2 then zone[..|zone| - 2] + ":" + zone[|zone| - 2..] else ":" + zone
  }

  /** "+0530" is shown as "+05:30". */
  lemma OffsetLabelOfZone(zone: string)
    requires |zone| == 5
    ensures OffsetLabel(zone) == [zone[0], zone[1], zone[2], ':', zone[3], zone[4]]
  {
  }

  /** The country line: the name alone when it holds a space or has ten characters or more. */
  function CountryLabel(country: string, region: string): (r: string)
    ensures r == country <==> ' ' in country || |country| >= 10
    ensures r != country ==> r == country + ", " + region
    ensures r[..|country|] == country
  {
    if ' ' in country || |country| >= 10 then country else country + ", " + region
  }
}
