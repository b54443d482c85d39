/**
 * The smart personalization module: where the visitor is (device geolocation, else
 * an IP lookup, else a fixed default), a simulated weather condition derived from the
 * local hour and random draws, the theme table keyed by condition, the greeting by
 * hour, the location-based project list and the hour/weather colour hues.
 *
 * The browser's inputs are parameters: the local hour (`new Date().getHours()`), the
 * values of `Math.random()`, the geolocation outcome and the IP lookup outcome.
 */
module Personalization {
  import opened Wrappers
  import ClassList

  /** `new Date().getHours()`. */
  type Hour = h: int | 0 <= h < 24

  /** A value of `Math.random()`. */
  type Draw = r: real | 0.0 <= r < 1.0

  // ---------------------------------------------------------------------------
  // Locations

  datatype Location = Location(
    lat: real, lon: real,
    city: Option<string>, country: Option<string>, timezone: Option<string>)

  /** The fallback coordinate used when the IP lookup fails. */
  const DefaultLocation := Location(40.7128, -74.0060, None, None, None)

  /** The fields read from the IP-geolocation service's JSON answer. */
  datatype IpRecord = IpRecord(
    latitude: real, longitude: real,
    city: Option<string>, countryName: Option<string>, timezone: Option<string>)

  /** What the browser's geolocation API does: absent, or calls back with a
      position, or calls back with an error (permission denied, timeout). */
  datatype GeoOutcome = Unsupported | Granted(latitude: real, longitude: real) | Denied

  function LocationFromIp(d: IpRecord): Location {
    Location(d.latitude, d.longitude, d.city, d.countryName, d.timezone)
  }

  /** Where the fallback chain of `getUserLocation` ends once every callback has run:
      the device position (which carries no city), else the IP record, else the
      default coordinate. A city is only ever learnt from the IP lookup. */
  function ResolvedLocation(geo: GeoOutcome, lookup: Option<IpRecord>): (loc: Location)
    ensures loc.city.Some? ==> !geo.Granted? && lookup.Some? && loc.city == lookup.value.city
    ensures !geo.Granted? && lookup.None? ==> loc == DefaultLocation
  {
    if geo.Granted? then Location(geo.latitude, geo.longitude, None, None, None)
    else if lookup.Some? then LocationFromIp(lookup.value)
    else DefaultLocation
  }

  /** The stored timezone once the chain has ended: only a successful IP lookup sets it. */
  function ResolvedTimezone(geo: GeoOutcome, lookup: Option<IpRecord>, previous: Option<string>)
    : Option<string>
  {
    if !geo.Granted? && lookup.Some? then lookup.value.timezone else previous
  }

  /** `this.userLocation && this.userLocation.city`: a location with a non-empty city. */
  predicate HasCity(loc: Option<Location>) {
    loc.Some? && loc.value.city.Some? && loc.value.city.value != ""
  }

  // ---------------------------------------------------------------------------
  // Weather

  datatype Weather = Weather(condition: string, temperature: int, description: string)

  /** The candidate conditions of the simulator, indexed by `floor(r * 3)`. */
  const WeatherConditions: seq<string> := ["sunny", "rainy", "cloudy", "clear"]

  /** Every condition the tables below know. */
  const KnownConditions: set<string> := {"sunny", "rainy", "cloudy", "clear", "night"}

  const Descriptions: map<string, string> := map[
    "sunny" := "Bright and sunny",
    "rainy" := "Light rain",
    "cloudy" := "Partly cloudy",
    "clear" := "Clear skies",
    "night" := "Clear night"]

  /** `getWeatherDescription`: the table entry, or the generic text for any other condition. */
  function WeatherDescription(condition: string): (d: string)
    ensures d == "Pleasant weather" <==> condition !in KnownConditions
  {
    if condition in Descriptions then Descriptions[condition] else "Pleasant weather"
  }

  /** The simulator's day branch covers hours 6 to 18, both included. */
  predicate IsDaytime(hour: Hour) {
    6 <= hour <= 18
  }

  /** `simulateWeatherData` for one hour and the successive values of `Math.random()`:
      by day the first draw picks the condition and the second the temperature; by
      night the first draw picks the temperature. */
  function SimulatedWeather(hour: Hour, first: Draw, second: Draw): (w: Weather)
    ensures IsDaytime(hour) ==>
      w.condition in {"sunny", "rainy", "cloudy"} && 10 <= w.temperature <= 39
    ensures !IsDaytime(hour) ==>
      w.condition == "night" && 5 <= w.temperature <= 24 && w.description == "Clear night"
    ensures w.condition in KnownConditions && w.description == WeatherDescription(w.condition)
  {
    if IsDaytime(hour) then
      var condition := WeatherConditions[(first * 3.0).Floor];
      Weather(condition, (second * 30.0).Floor + 10, WeatherDescription(condition))
    else
      Weather("night", (first * 20.0).Floor + 5, "Clear night")
  }

  /** Every daytime outcome the ranges allow is produced by some pair of draws, so the
      ranges of `SimulatedWeather` are exact. */
  lemma DaytimeOutcomesReachable(hour: Hour, condition: string, temperature: int)
    requires IsDaytime(hour)
    requires condition in {"sunny", "rainy", "cloudy"} && 10 <= temperature <= 39
    ensures exists first: Draw, second: Draw ::
      SimulatedWeather(hour, first, second).condition == condition &&
      SimulatedWeather(hour, first, second).temperature == temperature
  {
    var k := if condition == "sunny" then 0 else if condition == "rainy" then 1 else 2;
    var first: Draw := k as real / 3.0;
    var second: Draw := (temperature - 10) as real / 30.0;
    assert (first * 3.0).Floor == k;
    assert (second * 30.0).Floor == temperature - 10;
    assert SimulatedWeather(hour, first, second).condition == condition;
  }

  /** Every night temperature from 5 to 24 is produced by some draw. */
  lemma NightTemperaturesReachable(hour: Hour, temperature: int)
    requires !IsDaytime(hour) && 5 <= temperature <= 24
    ensures exists first: Draw, second: Draw ::
      SimulatedWeather(hour, first, second).temperature == temperature
  {
    var first: Draw := (temperature - 5) as real / 20.0;
    assert (first * 20.0).Floor == temperature - 5;
    assert SimulatedWeather(hour, first, 0.0).temperature == temperature;
  }

  // ---------------------------------------------------------------------------
  // Tables keyed by condition

  datatype Theme = Theme(primary: string, secondary: string, background: string, accent: string)

  const Themes: map<string, Theme> := map[
    "sunny" := Theme("#FFD700", "#FF8C00",
      "linear-gradient(135deg, #FFE5B4 0%, #FFCC70 100%)", "#FF6B35"),
    "rainy" := Theme("#4A90E2", "#2C5282",
      "linear-gradient(135deg, #667eea 0%, #764ba2 100%)", "#5A67D8"),
    "cloudy" := Theme("#718096", "#4A5568",
      "linear-gradient(135deg, #bdc3c7 0%, #2c3e50 100%)", "#805AD5"),
    "clear" := Theme("#38B2AC", "#319795",
      "linear-gradient(135deg, #667eea 0%, #764ba2 100%)", "#4FD1C7"),
    "night" := Theme("#2D3748", "#1A202C",
      "linear-gradient(135deg, #2c3e50 0%, #34495e 100%)", "#9F7AEA")]

  /** The weather icons; the clear-sky icon doubles as the default. */
  datatype Icon = Sun | RainCloud | Cloud | SunBehindCloud | CrescentMoon

  const Icons: map<string, Icon> := map[
    "sunny" := Sun, "rainy" := RainCloud, "cloudy" := Cloud,
    "clear" := SunBehindCloud, "night" := CrescentMoon]

  /** `getWeatherIcon`: the clear-sky icon for "clear" and for every unknown condition. */
  function WeatherIcon(condition: string): (icon: Icon)
    ensures icon == SunBehindCloud <==> condition == "clear" || condition !in KnownConditions
  {
    if condition in Icons then Icons[condition] else SunBehindCloud
  }

  const ColorModifiers: map<string, int> := map[
    "sunny" := 30, "rainy" := -30, "cloudy" := 0, "clear" := 15, "night" := -45]

  /** The tables are keyed by exactly the known conditions, and the two lookups with a
      fallback return the table entry for a known condition and the fallback otherwise. */
  lemma TablesCoverKnownConditions(condition: string)
    ensures condition in KnownConditions <==> condition in Themes
    ensures condition in KnownConditions <==> condition in Descriptions
    ensures condition in KnownConditions <==> condition in Icons
    ensures condition in KnownConditions <==> condition in ColorModifiers
    ensures condition in KnownConditions ==> WeatherIcon(condition) == Icons[condition]
    ensures condition !in KnownConditions ==>
      WeatherIcon(condition) == SunBehindCloud && WeatherDescription(condition) == "Pleasant weather"
  {
  }

  // ---------------------------------------------------------------------------
  // Greeting

  /** The greeting band of `setupTimezoneGreeting`. */
  function Greeting(hour: Hour): (g: string)
    ensures g == "Good Morning" <==> 5 <= hour < 12
    ensures g == "Good Afternoon" <==> 12 <= hour < 17
    ensures g == "Good Evening" <==> 17 <= hour < 21
    ensures g == "Good Night" <==> hour < 5 || 21 <= hour
  {
    if 5 <= hour < 12 then "Good Morning"
    else if 12 <= hour < 17 then "Good Afternoon"
    else if 17 <= hour < 21 then "Good Evening"
    else "Good Night"
  }

  /** The " from {city}" suffix, present exactly when the location has a non-empty city. */
  function LocationSuffix(loc: Option<Location>): (suffix: string)
    ensures suffix != "" <==> HasCity(loc)
    ensures HasCity(loc) ==> suffix == " from " + loc.value.city.value
  {
    if HasCity(loc) then " from " + loc.value.city.value else ""
  }

  /** The greeting text written into the page. */
  function GreetingText(hour: Hour, loc: Option<Location>): string {
    Greeting(hour) + LocationSuffix(loc) + "!"
  }

  // ---------------------------------------------------------------------------
  // Location-based projects

  datatype Project = Project(
    title: string, description: string, relevance: string, regions: seq<string>)

  const AllProjects: seq<Project> := [
    Project("Weather Analytics Dashboard",
      "Real-time weather data visualization for your region",
      "Relevant to your current weather conditions", ["all"]),
    Project("Local Business Finder",
      "ML-powered local business recommendation system",
      "Perfect for your city", ["urban"]),
    Project("Traffic Optimization AI",
      "Smart traffic flow analysis for metropolitan areas",
      "Ideal for busy cities", ["urban"])]

  /** The filter predicate: projects for every region, and urban ones when the city is known. */
  predicate Recommended(p: Project, loc: Option<Location>) {
    "all" in p.regions || (HasCity(loc) && "urban" in p.regions)
  }

  /** `Array.prototype.filter` with `Recommended`. */
  function FilterProjects(ps: seq<Project>, loc: Option<Location>): (r: seq<Project>)
    ensures forall p :: p in r <==> p in ps && Recommended(p, loc)
    ensures |r| <= |ps|
  {
    if ps == [] then []
    else (if Recommended(ps[0], loc) then [ps[0]] else []) + FilterProjects(ps[1..], loc)
  }

  /** `getLocationBasedProjects`: the "all" project always, then the two urban projects
      in source order exactly when the location has a city. */
  function LocationBasedProjects(loc: Option<Location>): (r: seq<Project>)
    ensures r == if HasCity(loc) then AllProjects else [AllProjects[0]]
    ensures |r| == 1 || |r| == 3
  {
    var ps := AllProjects;
    var tail1, tail2 := ps[1..], ps[2..];
    assert tail2[1..] == [];
    assert tail1[1..] == tail2;
    assert FilterProjects(tail2, loc) == (if HasCity(loc) then [ps[2]] else []);
    assert FilterProjects(tail1, loc) == (if HasCity(loc) then [ps[1], ps[2]] else []);
    assert FilterProjects(ps, loc) == [ps[0]] + FilterProjects(tail1, loc);
    FilterProjects(ps, loc)
  }

  // ---------------------------------------------------------------------------
  // Dynamic colours

  /** An `hsl(hue, saturation%, lightness%)` colour. */
  datatype Hsl = Hsl(hue: int, saturation: int, lightness: int)

  datatype DynamicColors = DynamicColors(primary: Hsl, secondary: Hsl, accent: Hsl)

  /** `getTimeBasedHue`: fifteen degrees per hour. */
  function TimeBasedHue(hour: Hour): (hue: int)
    ensures 0 <= hue <= 345 && hue % 15 == 0
  {
    (hour * 15) % 360
  }

  /** The hue changes every hour: no two hours of the day share one. */
  lemma HueChangesEveryHour(h1: Hour, h2: Hour)
    requires h1 != h2
    ensures TimeBasedHue(h1) != TimeBasedHue(h2)
  {
    assert TimeBasedHue(h1) == h1 * 15 && TimeBasedHue(h2) == h2 * 15;
  }

  /** `getWeatherColorModifier`: the table entry for the current condition; 0 without
      weather or for a condition outside the table. */
  function WeatherColorModifier(weather: Option<Weather>): (m: int)
    ensures -45 <= m <= 30
    ensures weather.None? ==> m == 0
  {
    if weather.None? || weather.value.condition !in ColorModifiers then 0
    else ColorModifiers[weather.value.condition]
  }

  /** `setupDynamicColors`: the primary hue is the hour's hue shifted by the weather,
      and the secondary and accent hues sit 30 and 60 degrees further on. */
  function DynamicColorsFor(hour: Hour, weather: Option<Weather>): (c: DynamicColors)
    ensures c.primary.hue == TimeBasedHue(hour) + WeatherColorModifier(weather)
    ensures c.secondary.hue == c.primary.hue + 30 && c.accent.hue == c.primary.hue + 60
    ensures -45 <= c.primary.hue <= 375
  {
    var base := TimeBasedHue(hour) + WeatherColorModifier(weather);
    DynamicColors(Hsl(base, 70, 50), Hsl(base + 30, 60, 45), Hsl(base + 60, 80, 55))
  }

  // ---------------------------------------------------------------------------
  // The page and the personalization object

  /** What `applyWeatherTheme` does with the current weather. */
  datatype ThemeOutcome =
    | NoWeather          // no current weather: returns at once
    | MissingTheme       // no theme row (and no inherited member): `theme.primary` throws
    | Applied            // tokens and body class written

  /** The parts of the document the module writes: the body's class attribute and the
      custom properties on the root element's style. */
  class Document {
    var bodyClassName: string
    var rootStyle: map<string, string>

    constructor (className: string)
      ensures bodyClassName == className && rootStyle == map[]
    {
      bodyClassName := className;
      rootStyle := map[];
    }

    /** The writes of `applyWeatherTheme` once a theme row is found: the condition's
        four tokens on the root style, and its class in place of the weather classes. */
    method ApplyTheme(condition: string)
      requires condition in Themes
      modifies this
      ensures bodyClassName == ClassList.WithWeatherClass(old(bodyClassName), condition)
      ensures rootStyle == WithThemeTokens(old(rootStyle), condition)
    {
      bodyClassName, rootStyle :=
        ClassList.WithWeatherClass(bodyClassName, condition), WithThemeTokens(rootStyle, condition);
    }
  }

  /** The names of the custom properties `applyWeatherTheme` writes. */
  const ThemeTokenNames: set<string> :=
    {"--weather-primary", "--weather-secondary", "--weather-background", "--weather-accent"}

  /** The style after the four weather tokens of a condition's theme are written: each
      token holds its field of the row, and every other property is left as it was. */
  function WithThemeTokens(style: map<string, string>, condition: string): (r: map<string, string>)
    requires condition in Themes
    ensures r.Keys == style.Keys + ThemeTokenNames
    ensures forall k :: k in style && k !in ThemeTokenNames ==> r[k] == style[k]
    ensures r["--weather-primary"] == Themes[condition].primary
    ensures r["--weather-secondary"] == Themes[condition].secondary
    ensures r["--weather-background"] == Themes[condition].background
    ensures r["--weather-accent"] == Themes[condition].accent
  {
    var t := Themes[condition];
    style["--weather-primary" := t.primary]["--weather-secondary" := t.secondary]
         ["--weather-background" := t.background]["--weather-accent" := t.accent]
  }

  class SmartPersonalization {
    var currentWeather: Option<Weather>
    var userLocation: Option<Location>
    var userTimezone: Option<string>

    constructor ()
      ensures currentWeather == None && userLocation == None && userTimezone == None
    {
      currentWeather := None;
      userLocation := None;
      userTimezone := None;
    }

    /** `getLocationFromIP`: the looked-up location and its timezone, or the default
        location (timezone untouched) when the request or its JSON fails. */
    method GetLocationFromIP(lookup: Option<IpRecord>)
      modifies this`userLocation, this`userTimezone
      ensures lookup.Some? ==>
        userLocation == Some(LocationFromIp(lookup.value)) && userTimezone == lookup.value.timezone
      ensures lookup.None? ==>
        userLocation == Some(DefaultLocation) && userTimezone == old(userTimezone)
      ensures currentWeather == old(currentWeather)
    {
      match lookup {
        case Some(d) =>
          userLocation := Some(LocationFromIp(d));
          userTimezone := d.timezone;
        case None =>
          userLocation := Some(DefaultLocation);
      }
    }

    /** `getUserLocation` up to the moment its promise settles. A granted position is
        stored; without geolocation the IP lookup is awaited; on a geolocation error the
        IP lookup is started but not awaited, so nothing has changed yet and
        `ipPending` reports the lookup still in flight. */
    method GetUserLocation(geo: GeoOutcome, lookup: Option<IpRecord>) returns (ipPending: bool)
      modifies this`userLocation, this`userTimezone
      ensures ipPending <==> geo.Denied?
      ensures geo.Granted? ==>
        userLocation == Some(Location(geo.latitude, geo.longitude, None, None, None)) &&
        userTimezone == old(userTimezone)
      ensures geo.Unsupported? && lookup.Some? ==>
        userLocation == Some(LocationFromIp(lookup.value)) && userTimezone == lookup.value.timezone
      ensures geo.Unsupported? && lookup.None? ==>
        userLocation == Some(DefaultLocation) && userTimezone == old(userTimezone)
      ensures geo.Denied? ==> userLocation == old(userLocation) && userTimezone == old(userTimezone)
      ensures !geo.Denied? ==>
        userLocation == Some(ResolvedLocation(geo, lookup)) &&
        userTimezone == ResolvedTimezone(geo, lookup, old(userTimezone))
      ensures currentWeather == old(currentWeather)
    {
      ipPending := false;
      match geo {
        case Granted(lat, lon) =>
          userLocation := Some(Location(lat, lon, None, None, None));
        case Unsupported =>
          GetLocationFromIP(lookup);
        case Denied =>
          ipPending := true;
      }
    }

    /** `getUserLocation` with the IP lookup of the error callback awaited too: when it
        returns, the fallback chain has ended on every path. */
    method AwaitLocation(geo: GeoOutcome, lookup: Option<IpRecord>)
      modifies this`userLocation, this`userTimezone
      ensures userLocation == Some(ResolvedLocation(geo, lookup))
      ensures userTimezone == ResolvedTimezone(geo, lookup, old(userTimezone))
    {
      var ipPending := GetUserLocation(geo, lookup);
      if ipPending {
        GetLocationFromIP(lookup);
      }
    }

    /** `simulateWeatherData`. */
    method SimulateWeatherData(hour: Hour, first: Draw, second: Draw)
      modifies this`currentWeather
      ensures currentWeather == Some(SimulatedWeather(hour, first, second))
    {
      currentWeather := Some(SimulatedWeather(hour, first, second));
    }

    /** `getWeatherData`: nothing without a location, the simulated weather otherwise. */
    method GetWeatherData(hour: Hour, first: Draw, second: Draw)
      modifies this`currentWeather
      ensures userLocation.None? ==> currentWeather == old(currentWeather)
      ensures userLocation.Some? ==> currentWeather == Some(SimulatedWeather(hour, first, second))
    {
      if userLocation.None? {
        return;
      }
      SimulateWeatherData(hour, first, second);
    }

    /** `applyWeatherTheme`: without weather nothing happens; a condition without a
        theme row throws before anything is written; otherwise the four tokens of the
        condition's row are written and the body's weather class is replaced. */
    method ApplyWeatherTheme(doc: Document) returns (outcome: ThemeOutcome)
      modifies doc
      ensures outcome == NoWeather <==> currentWeather.None?
      ensures outcome == MissingTheme <==>
        currentWeather.Some? && currentWeather.value.condition !in Themes
      ensures outcome != Applied ==>
        doc.bodyClassName == old(doc.bodyClassName) && doc.rootStyle == old(doc.rootStyle)
      ensures outcome == Applied ==>
        doc.rootStyle == WithThemeTokens(old(doc.rootStyle), currentWeather.value.condition)
      ensures outcome == Applied ==>
        doc.bodyClassName == ClassList.WithWeatherClass(old(doc.bodyClassName), currentWeather.value.condition)
    {
      if currentWeather.None? {
        return NoWeather;
      }
      var c := currentWeather.value.condition;
      if c !in Themes {
        return MissingTheme;
      }
      doc.ApplyTheme(c);
      outcome := Applied;
    }

    /** `setupTimezoneGreeting`: the greeting text for the hour and the stored location. */
    method SetupTimezoneGreeting(hour: Hour) returns (text: string)
      ensures text == GreetingText(hour, userLocation)
    {
      text := Greeting(hour) + LocationSuffix(userLocation) + "!";
    }

    /** `setupLocationBasedContent`: no recommendations without a location. */
    method SetupLocationBasedContent() returns (shown: Option<seq<Project>>)
      ensures shown.None? <==> userLocation.None?
      ensures shown.Some? ==> shown.value == LocationBasedProjects(userLocation)
    {
      if userLocation.None? {
        return None;
      }
      shown := Some(LocationBasedProjects(userLocation));
    }

    /** `setupDynamicColors`. */
    method SetupDynamicColors(hour: Hour) returns (colors: DynamicColors)
      ensures colors == DynamicColorsFor(hour, currentWeather)
    {
      colors := DynamicColorsFor(hour, currentWeather);
    }

    /** The steps of `init` after the location is known: weather, greeting, theme,
        projects and colours, in that order. */
    method Personalize(doc: Document, hour: Hour, first: Draw, second: Draw)
      returns (greeting: string, projects: Option<seq<Project>>, colors: DynamicColors)
      modifies this`currentWeather, doc
      ensures userLocation.Some? ==> currentWeather == Some(SimulatedWeather(hour, first, second))
      ensures userLocation.None? ==> currentWeather == old(currentWeather)
      ensures currentWeather.None? ==>
        doc.bodyClassName == old(doc.bodyClassName) && doc.rootStyle == old(doc.rootStyle)
      ensures currentWeather.Some? && currentWeather.value.condition in Themes ==>
        doc.bodyClassName == ClassList.WithWeatherClass(old(doc.bodyClassName), currentWeather.value.condition) &&
        doc.rootStyle == WithThemeTokens(old(doc.rootStyle), currentWeather.value.condition)
      ensures greeting == GreetingText(hour, userLocation)
      ensures projects == if userLocation.None? then None else Some(LocationBasedProjects(userLocation))
      ensures colors == DynamicColorsFor(hour, currentWeather)
    {
      GetWeatherData(hour, first, second);
      greeting := SetupTimezoneGreeting(hour);
      var _ := ApplyWeatherTheme(doc);
      projects := SetupLocationBasedContent();
      colors := SetupDynamicColors(hour);
    }

    /** `init` as written: when geolocation is denied, the IP lookup started in the
        error callback is not awaited, so the weather, theme, greeting, projects and
        colours are all computed before any location exists; the lookup lands last. */
    method InitAsWritten(doc: Document, geo: GeoOutcome, lookup: Option<IpRecord>,
                         hour: Hour, first: Draw, second: Draw)
      returns (greeting: string, projects: Option<seq<Project>>, colors: DynamicColors)
      requires userLocation.None? && currentWeather.None?
      modifies this`userLocation, this`userTimezone, this`currentWeather, doc
      ensures userLocation == Some(ResolvedLocation(geo, lookup))
      ensures userTimezone == ResolvedTimezone(geo, lookup, old(userTimezone))
      ensures !geo.Denied? ==>
        && currentWeather == Some(SimulatedWeather(hour, first, second))
        && (var c := SimulatedWeather(hour, first, second).condition;
            doc.bodyClassName == ClassList.WithWeatherClass(old(doc.bodyClassName), c) &&
            doc.rootStyle == WithThemeTokens(old(doc.rootStyle), c))
        && greeting == GreetingText(hour, userLocation)
        && projects == Some(LocationBasedProjects(userLocation))
        && colors == DynamicColorsFor(hour, currentWeather)
      ensures geo.Denied? ==>
        && currentWeather.None?
        && doc.bodyClassName == old(doc.bodyClassName) && doc.rootStyle == old(doc.rootStyle)
        && greeting == GreetingText(hour, None)
        && projects.None?
        && colors == DynamicColorsFor(hour, None)
    {
      var ipPending := GetUserLocation(geo, lookup);
      if ipPending {
        greeting, projects, colors := Personalize(doc, hour, first, second);
        GetLocationFromIP(lookup);
      } else {
        SimulatedWeatherIsThemed(hour, first, second);
        greeting, projects, colors := Personalize(doc, hour, first, second);
      }
    }

    /** `init` with the IP fallback awaited on every path: a location always exists
        before the weather is simulated, so the weather is set and its theme applied. */
    method Init(doc: Document, geo: GeoOutcome, lookup: Option<IpRecord>,
                hour: Hour, first: Draw, second: Draw)
      returns (greeting: string, projects: Option<seq<Project>>, colors: DynamicColors)
      modifies this`userLocation, this`userTimezone, this`currentWeather, doc
      ensures userLocation == Some(ResolvedLocation(geo, lookup))
      ensures userTimezone == ResolvedTimezone(geo, lookup, old(userTimezone))
      ensures currentWeather == Some(SimulatedWeather(hour, first, second))
      ensures var c := SimulatedWeather(hour, first, second).condition;
        doc.bodyClassName == ClassList.WithWeatherClass(old(doc.bodyClassName), c) &&
        doc.rootStyle == WithThemeTokens(old(doc.rootStyle), c)
      ensures greeting == GreetingText(hour, userLocation)
      ensures projects == Some(LocationBasedProjects(userLocation))
      ensures colors == DynamicColorsFor(hour, currentWeather)
    {
      AwaitLocation(geo, lookup);
      SimulatedWeatherIsThemed(hour, first, second);
      greeting, projects, colors := Personalize(doc, hour, first, second);
    }

    /** The half-hourly refresh: new weather and a new greeting. The theme is not
        re-applied, so the page keeps the classes and tokens it had. */
    method Refresh(doc: Document, hour: Hour, first: Draw, second: Draw) returns (greeting: string)
      modifies this`currentWeather
      ensures userLocation.Some? ==> currentWeather == Some(SimulatedWeather(hour, first, second))
      ensures userLocation.None? ==> currentWeather == old(currentWeather)
      ensures greeting == GreetingText(hour, userLocation)
      ensures doc.bodyClassName == old(doc.bodyClassName) && doc.rootStyle == old(doc.rootStyle)
    {
      GetWeatherData(hour, first, second);
      greeting := SetupTimezoneGreeting(hour);
    }
  }

  /** Every condition the simulator produces has a theme row and a single-word class
      name, so `applyWeatherTheme` never takes its throwing path after a simulation and
      leaves exactly one weather class behind. */
  lemma SimulatedWeatherIsThemed(hour: Hour, first: Draw, second: Draw)
    ensures var c := SimulatedWeather(hour, first, second).condition;
      && c in Themes
      && |c| > 0 && (forall i :: 0 <= i < |c| ==> ClassList.IsWordChar(c[i]))
  {
    var c := SimulatedWeather(hour, first, second).condition;
    assert c in KnownConditions;
  }

  /** After a simulated weather's class replacement the class list holds that weather's class. */
  lemma SimulatedClassPresent(className: string, hour: Hour, first: Draw, second: Draw)
    ensures var c := SimulatedWeather(hour, first, second).condition;
      ClassList.WeatherPrefix + c in ClassList.ClassTokens(ClassList.WithWeatherClass(className, c))
  {
    SimulatedWeatherIsThemed(hour, first, second);
    ClassList.WeatherClassReplaced(className, SimulatedWeather(hour, first, second).condition);
  }

  /** With geolocation denied at 2 a.m., the start-up as written ends without weather
      and leaves the body's classes as they were. */
  method DeniedGeolocationAsWritten(className: string)
    returns (weather: Option<Weather>, finalClass: string)
    ensures weather == None && finalClass == className
  {
    var lookup := Some(IpRecord(51.5, -0.12, Some("London"), Some("United Kingdom"), Some("Europe/London")));
    var doc := new Document(className);
    var p := new SmartPersonalization();
    var _, _, _ := p.InitAsWritten(doc, Denied, lookup, 2, 0.0, 0.0);
    weather, finalClass := p.currentWeather, doc.bodyClassName;
  }

  /** In the same situation the corrected start-up has the night weather and its class. */
  method DeniedGeolocationCorrected(className: string)
    returns (weather: Option<Weather>, finalClass: string)
    ensures weather == Some(Weather("night", 5, "Clear night"))
    ensures ClassList.WeatherPrefix + "night" in ClassList.ClassTokens(finalClass)
  {
    var lookup := Some(IpRecord(51.5, -0.12, Some("London"), Some("United Kingdom"), Some("Europe/London")));
    var doc := new Document(className);
    var p := new SmartPersonalization();
    var _, _, _ := p.Init(doc, Denied, lookup, 2, 0.0, 0.0);
    weather, finalClass := p.currentWeather, doc.bodyClassName;
    assert SimulatedWeather(2, 0.0, 0.0).condition == "night";
    SimulatedClassPresent(className, 2, 0.0, 0.0);
  }
}
