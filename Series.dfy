/**
 * The two time series read from the forecast payload: the 24-hour series at
 * 3-hour steps (`current_day_temps`) and the seven-day series
 * (`Seven_days_forecast`). Date and time labels come from `datetime`
 * formatting, so they are passed in as functions of the timestamp.
 */
module Series {
  import opened Retrieval

  /** An insertion-ordered Python dict: its keys in insertion order and its entries. */
  datatype Dict<K, V> = Dict(keys: seq<K>, values: map<K, V>)

  /** The dict invariant: each key listed once, and exactly the keys that have entries. */
  predicate WellFormed<K, V>(d: Dict<K, V>)
  {
    && (forall i, j | 0 <= i < j < |d.keys| :: d.keys[i] != d.keys[j])
    && (forall i | 0 <= i < |d.keys| :: d.keys[i] in d.values)
    && (forall k | k in d.values :: k in d.keys)
  }

  /** `d[k] = v`: a new key goes last, an existing key keeps its place and takes the new value. */
  function Put<K, V>(d: Dict<K, V>, k: K, v: V): (r: Dict<K, V>)
    ensures WellFormed(d) ==> WellFormed(r)
    ensures r.values == d.values[k := v]
    ensures k in d.values ==> r.keys == d.keys
    ensures k !in d.values ==> r.keys == d.keys + [k]
  {
    if k in d.values then Dict(d.keys, d.values[k := v]) else Dict(d.keys + [k], d.values[k := v])
  }

  /** The dict built by assigning the pairs in order, starting from `{}`. */
  function FromPairs<K, V>(ps: seq<(K, V)>): (d: Dict<K, V>)
  {
    if ps == [] then Dict([], map[]) else Put(FromPairs(ps[..|ps| - 1]), ps[|ps| - 1].0, ps[|ps| - 1].1)
  }

  /** Every dict built from pairs is well formed. */
  lemma {:induction false} FromPairsWellFormed<K, V>(ps: seq<(K, V)>)
    ensures WellFormed(FromPairs(ps))
  {
    if ps != [] {
      FromPairsWellFormed(ps[..|ps| - 1]);
    }
  }

  lemma FromPairsSnoc<K, V>(ps: seq<(K, V)>, p: (K, V))
    ensures FromPairs(ps + [p]) == Put(FromPairs(ps), p.0, p.1)
  {
    assert (ps + [p])[..|ps|] == ps;
  }

  /** With distinct keys the dict lists every key once, in the order of the pairs. */
  lemma {:induction false} FromPairsKeys<K, V>(ps: seq<(K, V)>)
    requires forall i, j | 0 <= i < j < |ps| :: ps[i].0 != ps[j].0
    ensures |FromPairs(ps).keys| == |ps|
    ensures forall i | 0 <= i < |ps| :: FromPairs(ps).keys[i] == ps[i].0
  {
    if ps != [] {
      var n := |ps| - 1;
      var init := ps[..n];
      FromPairsKeys(init);
      FromPairsWellFormed(init);
      var d := FromPairs(init);
      assert forall i | 0 <= i < n :: d.keys[i] != ps[n].0;
      assert ps[n].0 !in d.values;
      assert FromPairs(ps).keys == d.keys + [ps[n].0];
    }
  }

  /** With distinct keys every pair's value is the one stored under its key. */
  lemma {:induction false} FromPairsValues<K, V>(ps: seq<(K, V)>)
    requires forall i, j | 0 <= i < j < |ps| :: ps[i].0 != ps[j].0
    ensures forall i | 0 <= i < |ps| :: ps[i].0 in FromPairs(ps).values
    ensures forall i | 0 <= i < |ps| :: FromPairs(ps).values[ps[i].0] == ps[i].1
  {
    if ps != [] {
      var n := |ps| - 1;
      var init := ps[..n];
      FromPairsValues(init);
      var d := FromPairs(init);
      assert FromPairs(ps).values == d.values[ps[n].0 := ps[n].1];
      forall i | 0 <= i < n
        ensures ps[i].0 in FromPairs(ps).values && FromPairs(ps).values[ps[i].0] == ps[i].1
      {
        assert init[i] == ps[i];
      }
    }
  }

  /** `current_day_temps` keeps index `i` exactly when `i <= 24` and `i % 3 == 0`. */
  predicate Kept(i: nat)
  {
    i <= 24 && i % 3 == 0
  }

  /** The kept elements of `h`, in their order. */
  function Sampled<T>(h: seq<T>): (s: seq<T>)
  {
    if h == [] then [] else Sampled(h[..|h| - 1]) + (if Kept(|h| - 1) then [h[|h| - 1]] else [])
  }

  /** How many of the first `n` indices are kept. */
  function KeptCount(n: nat): (c: nat)
  {
    if n >= 25 then 9 else (n + 2) / 3
  }

  /** The k-th sampled element is element 3k of the input, and there are KeptCount(|h|) of them. */
  lemma {:induction false} SampledAt<T>(h: seq<T>)
    ensures |Sampled(h)| == KeptCount(|h|)
    ensures forall k | 0 <= k < |Sampled(h)| :: Sampled(h)[k] == h[3 * k]
  {
    if h != [] {
      var n := |h| - 1;
      SampledAt(h[..n]);
    }
  }

  /** The series holds exactly the elements at kept indices: at most nine, nine once 25 are given. */
  lemma SampledIsKeptIndices<T>(h: seq<T>)
    ensures |Sampled(h)| <= 9
    ensures |h| >= 25 ==> |Sampled(h)| == 9
    ensures forall i | 0 <= i < |h| :: Kept(i) <==> i % 3 == 0 && i / 3 < |Sampled(h)|
    ensures forall i | 0 <= i < |h| && Kept(i) :: Sampled(h)[i / 3] == h[i]
  {
    SampledAt(h);
  }

  /** Elements past index 24 never enter the series. */
  lemma {:induction false} SampledIgnoresTail<T>(h: seq<T>)
    requires |h| >= 25
    ensures Sampled(h) == Sampled(h[..25])
  {
    if |h| > 25 {
      var n := |h| - 1;
      assert h[..n][..25] == h[..25];
      assert Sampled(h) == Sampled(h[..n]);
      SampledIgnoresTail(h[..n]);
    } else {
      assert h[..25] == h;
    }
  }

  /** The (label, temperature) pairs `current_day_temps` assigns, in order. */
  function Labelled(hs: seq<Hour>, timeLabel: int -> string): (ps: seq<(string, real)>)
    ensures |ps| == |hs|
  {
    seq(|hs|, k requires 0 <= k < |hs| => (timeLabel(hs[k].dt), hs[k].temp))
  }

  /** The dict `current_day_temps` returns. */
  function HourlyTemps(hourly: seq<Hour>, timeLabel: int -> string): (d: Dict<string, real>)
  {
    FromPairs(Labelled(Sampled(hourly), timeLabel))
  }

  /**
   * `current_day_temps`: walks the hourly entries, stops after index 24 and
   * assigns the label and temperature of every third entry.
   */
  method CurrentDayTemps(hourly: seq<Hour>, timeLabel: int -> string) returns (temps: Dict<string, real>)
    ensures temps == HourlyTemps(hourly, timeLabel)
  {
    temps := Dict([], map[]);
    var i := 0;
    while i < |hourly|
      invariant i <= |hourly| && i <= 25
      invariant temps == FromPairs(Labelled(Sampled(hourly[..i]), timeLabel))
    {
      if i > 24 {
        break;
      }
      ghost var before := Sampled(hourly[..i]);
      assert hourly[..i + 1][..i] == hourly[..i];
      if i % 3 == 0 {
        assert Sampled(hourly[..i + 1]) == before + [hourly[i]];
        assert Labelled(before + [hourly[i]], timeLabel) == Labelled(before, timeLabel) + [(timeLabel(hourly[i].dt), hourly[i].temp)];
        FromPairsSnoc(Labelled(before, timeLabel), (timeLabel(hourly[i].dt), hourly[i].temp));
        temps := Put(temps, timeLabel(hourly[i].dt), hourly[i].temp);
      } else {
        assert Sampled(hourly[..i + 1]) == before;
      }
      i := i + 1;
    }
    if i < |hourly| {
      SampledIgnoresTail(hourly);
    } else {
      assert hourly[..i] == hourly;
    }
  }

  /**
   * When the kept entries have distinct labels, the dict holds one point per
   * kept entry, in input order: the label of entry 3k first, with its temperature.
   */
  lemma HourlyTempsContents(hourly: seq<Hour>, timeLabel: int -> string)
    requires forall i, j | 0 <= i < j < |Sampled(hourly)| :: timeLabel(Sampled(hourly)[i].dt) != timeLabel(Sampled(hourly)[j].dt)
    ensures |HourlyTemps(hourly, timeLabel).keys| == KeptCount(|hourly|) <= 9
    ensures forall k | 0 <= k < KeptCount(|hourly|) ::
              && HourlyTemps(hourly, timeLabel).keys[k] == timeLabel(hourly[3 * k].dt)
              && timeLabel(hourly[3 * k].dt) in HourlyTemps(hourly, timeLabel).values
              && HourlyTemps(hourly, timeLabel).values[timeLabel(hourly[3 * k].dt)] == hourly[3 * k].temp
  {
    var s := Sampled(hourly);
    var ps := Labelled(s, timeLabel);
    SampledAt(hourly);
    FromPairsKeys(ps);
    FromPairsValues(ps);
    forall k | 0 <= k < KeptCount(|hourly|)
      ensures HourlyTemps(hourly, timeLabel).keys[k] == timeLabel(hourly[3 * k].dt)
      ensures timeLabel(hourly[3 * k].dt) in HourlyTemps(hourly, timeLabel).values
      ensures HourlyTemps(hourly, timeLabel).values[timeLabel(hourly[3 * k].dt)] == hourly[3 * k].temp
    {
      assert ps[k] == (timeLabel(hourly[3 * k].dt), hourly[3 * k].temp);
    }
  }

  /** One element of the list `Seven_days_forecast` returns. */
  datatype DayRecord = DayRecord(date: string, temp: real, dayTemp: real, nightTemp: real,
                                 name: string, description: string)

  /** The record made from one `daily` element; Temp and Day: are the same day temperature. */
  function RecordOf(d: Day, dateLabel: int -> string): (r: DayRecord)
  {
    DayRecord(dateLabel(d.dt), d.dayTemp, d.dayTemp, d.nightTemp, d.group, d.description)
  }

  /** `Seven_days_forecast`: one record per element of `daily[1:]`, in order. */
  method SevenDaysForecast(daily: seq<Day>, dateLabel: int -> string) returns (week: seq<DayRecord>)
    ensures |week| == if |daily| == 0 then 0 else |daily| - 1
    ensures forall k | 0 <= k < |week| :: week[k] == RecordOf(daily[k + 1], dateLabel)
    ensures forall k | 0 <= k < |week| :: week[k].temp == week[k].dayTemp == daily[k + 1].dayTemp
    ensures forall k | 0 <= k < |week| ::
              week[k].name == daily[k + 1].group && week[k].description == daily[k + 1].description
  {
    week := [];
    if daily == [] {
      return;
    }
    var i := 1;
    while i < |daily|
      invariant 1 <= i <= |daily|
      invariant |week| == i - 1
      invariant forall k | 0 <= k < |week| :: week[k] == RecordOf(daily[k + 1], dateLabel)
    {
      week := week + [RecordOf(daily[i], dateLabel)];
      i := i + 1;
    }
  }
}
