/**
 * The client-side reshaping done by `getWeatherData` in
 * `src/services/weatherService.ts`: a weather-code classifier, the rounding
 * of the daily mean temperature to one decimal, the zip of the columnar
 * `daily` arrays into one record per day, and the fail-soft policy that
 * replaces any failure by generated fallback data.
 *
 * The HTTP request is not modelled: its outcome is an input value. The
 * fallback generator is random and depends on the clock and the time zone,
 * so it is a parameter `mock` of the operation that uses it.
 */
module WeatherService {
  import opened Wrappers

  /** One day of weather as the dashboard shows it. */
  datatype WeatherData = WeatherData(
    date: string,
    temp: real,
    condition: string,
    humidity: Option<real>,
    precipitation: Option<real>)

  /**
   * The `daily` object of the backend's answer: parallel columns indexed by
   * the day. A column the backend left out is `None`.
   */
  datatype Daily = Daily(
    time: Option<seq<string>>,
    temperatureMax: Option<seq<real>>,
    temperatureMin: Option<seq<real>>,
    precipitationSum: Option<seq<real>>,
    weathercode: Option<seq<int>>)

  /** The body of the backend's answer; `daily` may be absent. */
  datatype WeatherResponse = WeatherResponse(daily: Option<Daily>)

  /** What the request produced: a transport or HTTP failure, or a body. */
  datatype Fetch = Failed | Received(data: WeatherResponse)

  // ---------------------------------------------------------------------
  // Weather condition classifier

  /** The categories, in the order of their bands. */
  const Categories: seq<string> := [
    "clear skies", "partly cloudy", "foggy", "rainy", "snowy",
    "rain showers", "snow showers", "thunderstorms", "varied conditions"]

  /** Inclusive upper bound of each band but the last, ascending. */
  const UpperBounds: seq<int> := [0, 3, 48, 67, 77, 82, 86, 99]

  /**
   * `getWeatherCondition`: the first test that holds decides, so each band
   * is closed above; `0` alone is "clear skies", and a negative code falls
   * into the `<= 3` test.
   */
  function Classify(code: int): (c: string)
    ensures c == "clear skies" <==> code == 0
    ensures c == "partly cloudy" <==> code < 0 || 1 <= code <= 3
    ensures c == "foggy" <==> 4 <= code <= 48
    ensures c == "rainy" <==> 49 <= code <= 67
    ensures c == "snowy" <==> 68 <= code <= 77
    ensures c == "rain showers" <==> 78 <= code <= 82
    ensures c == "snow showers" <==> 83 <= code <= 86
    ensures c == "thunderstorms" <==> 87 <= code <= 99
    ensures c == "varied conditions" <==> code > 99
  {
    if code == 0 then "clear skies"
    else if code <= 3 then "partly cloudy"
    else if code <= 48 then "foggy"
    else if code <= 67 then "rainy"
    else if code <= 77 then "snowy"
    else if code <= 82 then "rain showers"
    else if code <= 86 then "snow showers"
    else if code <= 99 then "thunderstorms"
    else "varied conditions"
  }

  /** How many of the bounds lie strictly below `code`. */
  function CountBelow(bounds: seq<int>, code: int): (k: nat)
    ensures k <= |bounds|
  {
    if bounds == [] then 0
    else (if bounds[0] < code then 1 else 0) + CountBelow(bounds[1..], code)
  }

  /**
   * Reference reading of the band table: a non-negative code falls in the
   * band whose index is the number of upper bounds it exceeds.
   */
  lemma ClassifyByBands(code: int)
    requires code >= 0
    ensures Classify(code) == Categories[CountBelow(UpperBounds, code)]
  {
    var b := UpperBounds;
    assert b[1..][1..][1..][1..][1..][1..][1..][1..] == [];
    assert CountBelow(b[1..][1..][1..][1..][1..][1..][1..], code) == if 99 < code then 1 else 0;
    assert CountBelow(b[1..][1..][1..][1..][1..][1..], code)
      == (if 86 < code then 1 else 0) + (if 99 < code then 1 else 0);
    assert CountBelow(b[1..][1..][1..][1..][1..], code)
      == (if 82 < code then 1 else 0) + (if 86 < code then 1 else 0) + (if 99 < code then 1 else 0);
    assert CountBelow(b[1..][1..][1..][1..], code)
      == (if 77 < code then 1 else 0) + (if 82 < code then 1 else 0) + (if 86 < code then 1 else 0)
       + (if 99 < code then 1 else 0);
    assert CountBelow(b[1..][1..][1..], code)
      == (if 67 < code then 1 else 0) + (if 77 < code then 1 else 0) + (if 82 < code then 1 else 0)
       + (if 86 < code then 1 else 0) + (if 99 < code then 1 else 0);
    assert CountBelow(b[1..][1..], code)
      == (if 48 < code then 1 else 0) + (if 67 < code then 1 else 0) + (if 77 < code then 1 else 0)
       + (if 82 < code then 1 else 0) + (if 86 < code then 1 else 0) + (if 99 < code then 1 else 0);
    assert CountBelow(b[1..], code)
      == (if 3 < code then 1 else 0) + (if 48 < code then 1 else 0) + (if 67 < code then 1 else 0)
       + (if 77 < code then 1 else 0) + (if 82 < code then 1 else 0) + (if 86 < code then 1 else 0)
       + (if 99 < code then 1 else 0);
  }

  /** More bounds are exceeded by a larger code. */
  lemma {:induction false} CountBelowMonotone(bounds: seq<int>, a: int, b: int)
    requires a <= b
    ensures CountBelow(bounds, a) <= CountBelow(bounds, b)
    decreases |bounds|
  {
    if bounds != [] {
      CountBelowMonotone(bounds[1..], a, b);
    }
  }

  /** Position of a category in the band order. */
  function Rank(c: string): (k: nat)
    ensures k <= |Categories|
    ensures k < |Categories| ==> Categories[k] == c
  {
    if c == Categories[0] then 0
    else if c == Categories[1] then 1
    else if c == Categories[2] then 2
    else if c == Categories[3] then 3
    else if c == Categories[4] then 4
    else if c == Categories[5] then 5
    else if c == Categories[6] then 6
    else if c == Categories[7] then 7
    else if c == Categories[8] then 8
    else 9
  }

  /** The bands are ordered: for non-negative codes the category never goes back. */
  lemma ClassifyMonotone(a: int, b: int)
    requires 0 <= a <= b
    ensures Rank(Classify(a)) <= Rank(Classify(b))
  {
    ClassifyByBands(a);
    ClassifyByBands(b);
    CountBelowMonotone(UpperBounds, a, b);
    RankOfCategory(CountBelow(UpperBounds, a));
    RankOfCategory(CountBelow(UpperBounds, b));
  }

  /** The categories are distinct, so each one's rank is its position. */
  lemma RankOfCategory(k: nat)
    requires k < |Categories|
    ensures Rank(Categories[k]) == k
  {
  }

  /** The boundary codes of each band, with their categories; and a negative code. */
  lemma ClassifyBoundaries()
    ensures Classify(0) == "clear skies"
    ensures Classify(1) == "partly cloudy" && Classify(3) == "partly cloudy"
    ensures Classify(4) == "foggy" && Classify(48) == "foggy"
    ensures Classify(49) == "rainy" && Classify(67) == "rainy"
    ensures Classify(68) == "snowy" && Classify(77) == "snowy"
    ensures Classify(78) == "rain showers" && Classify(82) == "rain showers"
    ensures Classify(83) == "snow showers" && Classify(86) == "snow showers"
    ensures Classify(87) == "thunderstorms" && Classify(99) == "thunderstorms"
    ensures Classify(100) == "varied conditions"
    ensures Classify(-1) == "partly cloudy"
  {
  }

  // ---------------------------------------------------------------------
  // Rounding to one decimal

  /** `Math.round`: the nearest integer, halves rounded towards +infinity. */
  function MathRound(x: real): (n: int)
    ensures x - 0.5 < n as real <= x + 0.5
  {
    (x + 0.5).Floor
  }

  /** The `Math.round` result is the only integer in `(x - 1/2, x + 1/2]`. */
  lemma MathRoundUnique(x: real, n: int)
    requires x - 0.5 < n as real <= x + 0.5
    ensures MathRound(x) == n
  {
    var m := MathRound(x);
    assert -1.0 < (m - n) as real < 1.0;
  }

  /** `Math.round(x * 10) / 10`. */
  function RoundTenth(x: real): (r: real)
    ensures x - 0.05 < r <= x + 0.05
    ensures (r * 10.0).Floor as real == r * 10.0
  {
    MathRound(x * 10.0) as real / 10.0
  }

  /**
   * Reference characterisation of `RoundTenth`: the one multiple of a tenth
   * in `(x - 0.05, x + 0.05]`.
   */
  lemma RoundTenthUnique(x: real, k: int)
    requires x - 0.05 < k as real / 10.0 <= x + 0.05
    ensures RoundTenth(x) == k as real / 10.0
  {
    MathRoundUnique(x * 10.0, k);
  }

  /** A value already on a tenth is left as it is; so rounding is idempotent. */
  lemma RoundTenthExact(k: int)
    ensures RoundTenth(k as real / 10.0) == k as real / 10.0
  {
    RoundTenthUnique(k as real / 10.0, k);
  }

  lemma RoundTenthIdempotent(x: real)
    ensures RoundTenth(RoundTenth(x)) == RoundTenth(x)
  {
    var r := RoundTenth(x);
    var k := (r * 10.0).Floor;
    assert r == k as real / 10.0;
    RoundTenthExact(k);
  }

  /** Halves go up, on both sides of zero, as `Math.round` does. */
  lemma RoundTenthHalves()
    ensures RoundTenth(0.25) == 0.3
    ensures RoundTenth(-0.25) == -0.2
  {
    RoundTenthUnique(0.25, 3);
    RoundTenthUnique(-0.25, -2);
  }

  // ---------------------------------------------------------------------
  // The per-day reshaping inside `getWeatherData`

  /**
   * The guard of `getWeatherData`: no `daily`, or no `daily.time`. It tests
   * truthiness, and an array is truthy even when empty.
   */
  function IsInvalid(resp: WeatherResponse): (b: bool)
    ensures !b <==> resp.daily.Some? && resp.daily.value.time.Some?
    ensures resp.daily.Some? && resp.daily.value.time == Some([]) ==> !b
  {
    resp.daily.None? || resp.daily.value.time.None?
  }

  /** A column the per-day step reads is absent, so indexing it throws. */
  predicate ColumnMissing(d: Daily) {
    d.temperatureMax.None? || d.temperatureMin.None?
    || d.precipitationSum.None? || d.weathercode.None?
  }

  /**
   * The temperature columns, where present, have an entry for every day of
   * `time`. A shorter one would make the source add `undefined` and round a
   * `NaN`, which `real` cannot express; that case is outside the model.
   */
  predicate TemperaturesCoverTime(resp: WeatherResponse) {
    resp.daily.Some? && resp.daily.value.time.Some? ==>
      var d := resp.daily.value;
      var n := |d.time.value|;
      && (d.temperatureMax.Some? ==> |d.temperatureMax.value| >= n)
      && (d.temperatureMin.Some? ==> |d.temperatureMin.value| >= n)
  }

  /** Reading entry `i` of an array: `undefined` past its end. */
  function Reading<T>(s: seq<T>, i: nat): (v: Option<T>)
    ensures v.Some? <==> i < |s|
    ensures i < |s| ==> v.value == s[i]
  {
    if i < |s| then Some(s[i]) else None
  }

  /**
   * `getWeatherCondition` applied to what the code column holds for a day.
   * For `undefined` every comparison of the chain is false, so the last
   * return is reached.
   */
  function ClassifyReading(code: Option<int>): (c: string)
    ensures code.Some? ==> c == Classify(code.value)
    ensures code.None? ==> c == "varied conditions"
  {
    match code
    case Some(n) => Classify(n)
    case None => "varied conditions"
  }

  /** The record the `map` callback builds for one day. */
  function DayRecord(
    date: string, tmax: real, tmin: real,
    precipitation: Option<real>, code: Option<int>): (w: WeatherData)
    ensures w.date == date
    ensures var mean := (tmax + tmin) / 2.0;
      && mean - 0.05 < w.temp <= mean + 0.05
      && (w.temp * 10.0).Floor as real == w.temp * 10.0
    ensures w.condition == ClassifyReading(code)
    ensures w.precipitation == precipitation
    ensures w.humidity.None?
  {
    WeatherData(date, RoundTenth((tmax + tmin) / 2.0), ClassifyReading(code), None, precipitation)
  }

  /**
   * What the live path promises of its records, day `i` reading entry `i`
   * of every column. The 0.05 window repeats what `RoundTenth` guarantees,
   * as documentation of what the rounded temperature means.
   */
  predicate LiveRecords(d: Daily, days: seq<WeatherData>) {
    && d.time.Some?
    && |days| == |d.time.value|
    && forall i :: 0 <= i < |days| ==>
         && !ColumnMissing(d)
         && i < |d.temperatureMax.value| && i < |d.temperatureMin.value|
         && var mean := (d.temperatureMax.value[i] + d.temperatureMin.value[i]) / 2.0;
            && days[i].date == d.time.value[i]
            && days[i].temp == RoundTenth(mean)
            && mean - 0.05 < days[i].temp <= mean + 0.05
            && days[i].condition == ClassifyReading(Reading(d.weathercode.value, i))
            && days[i].precipitation == Reading(d.precipitationSum.value, i)
            && days[i].humidity.None?
  }

  /**
   * The live path of `getWeatherData`: `None` when it throws (the guard, or
   * a missing column read for some day), otherwise one record per entry of
   * `daily.time`, in order. An empty `time` array passes the guard, since
   * an empty array is truthy, and yields no records.
   */
  function Normalize(resp: WeatherResponse): (r: Option<seq<WeatherData>>)
    requires TemperaturesCoverTime(resp)
    ensures IsInvalid(resp) ==> r.None?
    ensures !IsInvalid(resp) ==>
      (r.None? <==> |resp.daily.value.time.value| > 0 && ColumnMissing(resp.daily.value))
    ensures r.Some? ==> LiveRecords(resp.daily.value, r.value)
  {
    if IsInvalid(resp) then None
    else
      var d := resp.daily.value;
      var time := d.time.value;
      if |time| == 0 then Some([])
      else if ColumnMissing(d) then None
      else
        Some(seq(|time|, i requires 0 <= i < |time| =>
          DayRecord(time[i], d.temperatureMax.value[i], d.temperatureMin.value[i],
                    Reading(d.precipitationSum.value, i), Reading(d.weathercode.value, i))))
  }

  /**
   * `getWeatherData`: the live records when the request succeeded and the
   * reshaping did not throw, and otherwise the fallback for the same range.
   * It has no error result.
   */
  function GetWeatherData(
    fetch: Fetch, fromDate: string, toDate: string,
    mock: (string, string) -> seq<WeatherData>): (r: seq<WeatherData>)
    requires fetch.Received? ==> TemperaturesCoverTime(fetch.data)
    ensures fetch.Failed? ==> r == mock(fromDate, toDate)
    ensures fetch.Received? ==>
      (if Normalize(fetch.data).Some? then LiveRecords(fetch.data.daily.value, r)
       else r == mock(fromDate, toDate))
  {
    match fetch
    case Failed => mock(fromDate, toDate)
    case Received(data) =>
      match Normalize(data)
      case Some(days) => days
      case None => mock(fromDate, toDate)
  }

  /** A response without `daily` or `daily.time` yields exactly the fallback. */
  lemma InvalidGivesFallback(
    resp: WeatherResponse, fromDate: string, toDate: string,
    mock: (string, string) -> seq<WeatherData>)
    requires IsInvalid(resp)
    ensures GetWeatherData(Received(resp), fromDate, toDate, mock) == mock(fromDate, toDate)
  {
  }

  /** A response with every column present never throws: its records are the live ones. */
  lemma CompleteResponseIsLive(
    d: Daily, fromDate: string, toDate: string,
    mock: (string, string) -> seq<WeatherData>)
    requires d.time.Some? && !ColumnMissing(d)
    requires TemperaturesCoverTime(WeatherResponse(Some(d)))
    ensures var resp := WeatherResponse(Some(d));
      var r := GetWeatherData(Received(resp), fromDate, toDate, mock);
      && Normalize(resp).Some? && r == Normalize(resp).value
      && LiveRecords(d, r)
  {
  }

  /**
   * Days past the end of a short code or precipitation column are still
   * live records: "varied conditions" and no precipitation.
   */
  lemma ShortColumnsReadUndefined(d: Daily, i: nat)
    requires d.time.Some? && !ColumnMissing(d)
    requires TemperaturesCoverTime(WeatherResponse(Some(d)))
    requires |d.weathercode.value| <= i < |d.time.value|
    requires |d.precipitationSum.value| <= i
    ensures var r := Normalize(WeatherResponse(Some(d)));
      && r.Some? && i < |r.value|
      && r.value[i].condition == "varied conditions"
      && r.value[i].precipitation.None?
  {
  }
}
