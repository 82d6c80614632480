/** Normalisation of a raw current-weather record into the record the chat
    model is shown: compass names for wind bearings, "Day"/"Night" for the
    daylight flag and a description for the numeric weather code.
    Bearings are reals: the source only compares them with constants that
    are exact binary fractions, so no rounding is involved. */
module WeatherTool {

  /** The sixteen compass points, clockwise from north. */
  const CompassPoints: seq<string> :=
    ["N", "NNE", "NE", "ENE", "E", "ESE", "SE", "SSE",
     "S", "SSW", "SW", "WSW", "W", "WNW", "NW", "NNW"]

  /** The fallback name for a bearing outside [0, 360] and for a weather
      code missing from the table. */
  const Unknown: string := "Unknown"

  /** The weather-code table: WMO code -> description. */
  const WeatherCodes: map<int, string> := map[
    0 := "Clear sky",
    1 := "Mainly clear",
    2 := "Partly cloudy",
    3 := "Overcast",
    45 := "Fog",
    48 := "Depositing rime fog",
    51 := "Drizzle: Light intensity",
    53 := "Drizzle: Moderate intensity",
    55 := "Drizzle: Dense intensity",
    56 := "Freezing Drizzle: Light intensity",
    57 := "Freezing Drizzle: Dense intensity",
    61 := "Rain: Slight intensity",
    63 := "Rain: Moderate intensity",
    65 := "Rain: Heavy intensity",
    66 := "Freezing Rain: Light intensity",
    67 := "Freezing Rain: Heavy intensity",
    71 := "Snow fall: Slight intensity",
    73 := "Snow fall: Moderate intensity",
    75 := "Snow fall: Heavy intensity",
    77 := "Snow grains",
    80 := "Rain showers: Slight intensity",
    81 := "Rain showers: Moderate intensity",
    82 := "Rain showers: Violent intensity",
    85 := "Snow showers: Slight intensity",
    86 := "Snow showers: Heavy intensity",
    95 := "Thunderstorm: Slight or moderate",
    96 := "Thunderstorm with slight hail",
    99 := "Thunderstorm with heavy hail"
  ]

  /** The raw record returned by the forecast service. */
  datatype InitWeatherData = InitWeatherData(
    time: string,
    interval: int,
    temperature: real,
    windspeed: real,
    winddirection: real,
    isDay: int,
    weathercode: int)

  /** The record handed back to the chat model. */
  datatype FinalWeatherData = FinalWeatherData(
    temperature: real,
    windspeed: real,
    winddirection: string,
    isDay: string,
    weathercode: string)

  /** The guarded cases of the source, tried in order: north wraps around
      0 and 360, every other point owns a half-open sector 22.5 degrees
      wide, and anything else is unknown. */
  function WindDirection(degrees: real): string
  {
    if 348.75 <= degrees <= 360.0 || 0.0 <= degrees < 11.25 then "N"
    else if 11.25 <= degrees < 33.75 then "NNE"
    else if 33.75 <= degrees < 56.25 then "NE"
    else if 56.25 <= degrees < 78.75 then "ENE"
    else if 78.75 <= degrees < 101.25 then "E"
    else if 101.25 <= degrees < 123.75 then "ESE"
    else if 123.75 <= degrees < 146.25 then "SE"
    else if 146.25 <= degrees < 168.75 then "SSE"
    else if 168.75 <= degrees < 191.25 then "S"
    else if 191.25 <= degrees < 213.75 then "SSW"
    else if 213.75 <= degrees < 236.25 then "SW"
    else if 236.25 <= degrees < 258.75 then "WSW"
    else if 258.75 <= degrees < 281.25 then "W"
    else if 281.25 <= degrees < 303.75 then "WNW"
    else if 303.75 <= degrees < 326.25 then "NW"
    else if 326.25 <= degrees < 348.75 then "NNW"
    else Unknown
  }

  /** Sector k of the compass, stated once for all k: sector 0 (north)
      wraps around and is closed at 360; sector k >= 1 is the half-open
      interval [11.25 + 22.5 (k - 1), 11.25 + 22.5 k). */
  ghost predicate InSector(degrees: real, k: int)
  {
    if k == 0 then 348.75 <= degrees <= 360.0 || 0.0 <= degrees < 11.25
    else 1 <= k < 16 && 11.25 + 22.5 * (k - 1) as real <= degrees < 11.25 + 22.5 * k as real
  }

  /** An arithmetic reference for the compass index: shift by half a
      sector, count whole sectors, wrap 16 back to north. */
  function SectorIndex(degrees: real): int
  {
    ((degrees + 11.25) / 22.5).Floor % 16
  }

  /** The compass names are pairwise distinct and none of them is the
      fallback. */
  lemma CompassPointsDistinct()
    ensures |CompassPoints| == 16
    ensures forall i, j :: 0 <= i < j < 16 ==> CompassPoints[i] != CompassPoints[j]
    ensures Unknown !in CompassPoints
  {
  }

  /** The sector table: the result is compass point k exactly when the
      bearing lies in sector k. Both directions, so the sectors are
      disjoint and each one is named by exactly one point. */
  lemma WindDirectionSector(degrees: real, k: int)
    requires 0 <= k < 16
    ensures WindDirection(degrees) == CompassPoints[k] <==> InSector(degrees, k)
  {
    CompassPointsDistinct();
  }

  /** Every bearing in [0, 360] gets a compass name; every other bearing
      gets the fallback. */
  lemma WindDirectionTotal(degrees: real)
    ensures 0.0 <= degrees <= 360.0 ==> WindDirection(degrees) in CompassPoints
    ensures WindDirection(degrees) == Unknown <==> degrees < 0.0 || degrees > 360.0
  {
    CompassPointsDistinct();
  }

  /** The chain of guarded cases agrees with the arithmetic reference on
      the whole closed range. */
  lemma WindDirectionMatchesIndex(degrees: real)
    requires 0.0 <= degrees <= 360.0
    ensures 0 <= SectorIndex(degrees) < 16
    ensures WindDirection(degrees) == CompassPoints[SectorIndex(degrees)]
  {
    var x := (degrees + 11.25) / 22.5;
    assert x.Floor as real <= x < x.Floor as real + 1.0;
  }

  /** Both ends of the range, and the first bearing past north. */
  lemma WindDirectionBoundaries()
    ensures WindDirection(0.0) == "N" && WindDirection(360.0) == "N"
    ensures WindDirection(348.75) == "N" && WindDirection(11.25) == "NNE"
    ensures WindDirection(-0.25) == Unknown && WindDirection(360.25) == Unknown
  {
  }

  /** The codes the table describes, in increasing order. */
  const TableCodes: set<int> :=
    {0, 1, 2, 3, 45, 48, 51, 53, 55, 56, 57, 61, 63, 65,
     66, 67, 71, 73, 75, 77, 80, 81, 82, 85, 86, 95, 96, 99}

  lemma WeatherCodeKeys()
    ensures WeatherCodes.Keys == TableCodes
  {
  }

  /** TableCodes in four runs of seven, split at 53, 66 and 81; counting
      each run separately keeps the cardinality proof small. */
  const Codes0To51: set<int> := {0, 1, 2, 3, 45, 48, 51}
  const Codes53To65: set<int> := {53, 55, 56, 57, 61, 63, 65}
  const Codes66To80: set<int> := {66, 67, 71, 73, 75, 77, 80}
  const Codes81To99: set<int> := {81, 82, 85, 86, 95, 96, 99}

  lemma CodeRuns()
    ensures TableCodes == Codes0To51 + Codes53To65 + Codes66To80 + Codes81To99
  {
  }

  lemma CodeRunSizes()
    ensures |Codes0To51| == 7 && |Codes53To65| == 7 && |Codes66To80| == 7 && |Codes81To99| == 7
  {
  }

  lemma CodeRunBounds()
    ensures forall x :: x in Codes0To51 ==> 0 <= x < 53
    ensures forall x :: x in Codes53To65 ==> 53 <= x < 66
    ensures forall x :: x in Codes66To80 ==> 66 <= x < 81
    ensures forall x :: x in Codes81To99 ==> 81 <= x <= 99
  {
  }

  /** Two sets split by a bound are disjoint, so their sizes add up. */
  lemma SplitCard(a: set<int>, b: set<int>, bound: int)
    requires forall x :: x in a ==> x < bound
    requires forall x :: x in b ==> x >= bound
    ensures |a + b| == |a| + |b|
  {
    assert forall x :: x !in a * b;
    assert a * b == {};
  }

  lemma TableCodesCard()
    ensures |TableCodes| == 28
  {
    CodeRuns();
    CodeRunSizes();
    CodeRunBounds();
    SplitCard(Codes0To51, Codes53To65, 53);
    SplitCard(Codes0To51 + Codes53To65, Codes66To80, 66);
    SplitCard(Codes0To51 + Codes53To65 + Codes66To80, Codes81To99, 81);
  }

  lemma TableCodesRange()
    ensures forall x :: x in TableCodes ==> 0 <= x <= 99
  {
    CodeRuns();
    CodeRunBounds();
  }

  lemma MapCard<K, V>(m: map<K, V>, keys: set<K>)
    requires m.Keys == keys
    ensures |m| == |keys|
  {
  }

  /** Every table key is a code between 0 and 99. */
  lemma WeatherCodesRange()
    ensures forall c :: c in WeatherCodes ==> 0 <= c <= 99
  {
    WeatherCodeKeys();
    TableCodesRange();
  }

  /** The table has exactly 28 entries. */
  lemma WeatherCodesSize()
    ensures |WeatherCodes| == 28
  {
    WeatherCodeKeys();
    TableCodesCard();
    MapCard(WeatherCodes, TableCodes);
  }

  /** No description in the table is the fallback. */
  lemma WeatherCodesKnown()
    ensures forall c :: c in WeatherCodes ==> WeatherCodes[c] != Unknown
  {
  }

  /** The table lookup with its fallback. */
  function WeatherDescription(code: int): string
  {
    if code in WeatherCodes then WeatherCodes[code] else Unknown
  }

  /** The lookup gives the fallback exactly for codes outside the table. */
  lemma WeatherDescriptionUnknown(code: int)
    ensures WeatherDescription(code) == Unknown <==> code !in WeatherCodes
    ensures code in WeatherCodes ==> WeatherDescription(code) == WeatherCodes[code]
  {
    WeatherCodesKnown();
  }

  /** The display record: temperature and wind speed unchanged, the
      bearing named, the daylight flag spelled out, the code described. */
  function MapWeatherData(init: InitWeatherData): (r: FinalWeatherData)
    ensures r.temperature == init.temperature && r.windspeed == init.windspeed
    ensures r.winddirection == WindDirection(init.winddirection)
    ensures r.isDay in {"Day", "Night"}
    ensures r.isDay == "Day" <==> init.isDay == 1
    ensures r.weathercode == Unknown <==> init.weathercode !in WeatherCodes
    ensures init.weathercode in WeatherCodes ==> r.weathercode == WeatherCodes[init.weathercode]
  {
    WeatherDescriptionUnknown(init.weathercode);
    FinalWeatherData(
      init.temperature,
      init.windspeed,
      WindDirection(init.winddirection),
      if init.isDay == 1 then "Day" else "Night",
      WeatherDescription(init.weathercode))
  }
}
