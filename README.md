# Portfolio site personalization and navigation logic, in Dafny

This project models the decision logic inside a personal portfolio web site. The
page's DOM, timers and network are replaced by parameters and small state records.

**`mcp-integration.js`: the `SmartPersonalization` class.** It works out where the
visitor is:
- browser geolocation first;
- then an IP-geolocation lookup;
- then a fixed default coordinate (40.7128, -74.0060).

It then simulates a weather condition from the local hour and `Math.random()`:
- from 6 to 18 o'clock inclusive: sunny, rainy or cloudy, 10–39 °C;
- otherwise: night, 5–24 °C.

It looks the condition up in the theme table and applies it to the page. That
means writing four `--weather-*` style tokens and replacing the body's
`weather-<word>` classes with `weather-<condition>`. The class also computes:
- a greeting by hour band, with " from {city}" when the city is known;
- location-based project recommendations;
- hues from the hour (15° per hour) shifted by a per-condition modifier.

**`script.js`.** The parts modelled are:
- the contact form's check order and its e-mail regular expression;
- the hero title's typing effect;
- the mobile menu's `active` flags;
- the scroll handler that picks the current section and highlights its link;
- the arrow-key section index;
- the alternating timeline classes.

Modules:

- `Wrappers`: `Option`, used for JavaScript's `null`/`undefined`.
- `ClassList`: the body's class attribute. Covers `className.replace(/weather-\w+/g, '')`
  and `classList.add`, with the attribute read as an ordered set of tokens split on
  ASCII whitespace.
- `Personalization`: the `SmartPersonalization` class, its fields updated in place,
  its tables and pure helpers, and a `Document` class holding the body's
  class attribute and the root element's style properties.
- `ContactForm`, `TypingEffect`, `Navigation`, `ScrollAnimations`: the parts of `script.js`.

The browser's inputs are parameters:
- the hour from `new Date().getHours()`;
- each value of `Math.random()`;
- the geolocation outcome (unsupported, granted with coordinates, or an error);
- the IP lookup outcome (a record, or failure);
- `window.scrollY` and the sections' `offsetTop`;
- the index of the current section.

The weather-class theorem `ClassList.WeatherClassReplaced` relies on one fact about
the regular expression. `/weather-\w+/g` is not anchored to class names, so it also
deletes `weather-<word>` text from inside a longer class name. The model keeps that
behaviour. The lemma states unconditionally:
- `weather-<condition>` is present exactly once;
- every class without such text survives.

It states "no other class carries `weather-<word>`" only under the hypothesis that every
match starts a class name.

Details of the code that the model keeps:

- The day band of `simulateWeatherData` is `hour >= 6 && hour <= 18`, so 18 o'clock is
  daytime (mcp-integration.js:129).
- The day temperature is `floor(r * 30) + 10`, at most 39, and the night temperature is
  at most 24 (mcp-integration.js:133, 139).
- The half-hourly refresh calls only `getWeatherData` and `setupTimezoneGreeting`
  (mcp-integration.js:55-58). It does not re-apply the theme, so
  `SmartPersonalization.Refresh` leaves the document untouched.
- By day the first random value picks the condition and the second the temperature.
  At night the first random value picks the temperature.

## Model

| member | source | states |
|---|---|---|
| `ClassList.StripWeatherClasses` | mcp-integration.js:169 | `replace(/weather-\w+/g, '')`, scanning left to right and deleting each match; the result is never longer than the attribute (its other properties are the lemmas below) |
| `ClassList.WordRun` | mcp-integration.js:169 | `\w+` is greedy: the run is all word characters and stops at a non-word character or the end |
| `ClassList.StripRemovesEveryWeatherClass` | mcp-integration.js:169 | when every `weather-<word>` match starts a class name, the replaced attribute contains no match at all |
| `ClassList.StripWithoutMatch` | mcp-integration.js:169 | an attribute with no `weather-<word>` text is left unchanged by the replacement |
| `ClassList.StripKeepsCharacters` | mcp-integration.js:169 | the replacement only deletes characters; every character of the result was in the input |
| `ClassList.StripAtSeparator` | mcp-integration.js:169 | no match crosses whitespace: the replacement of `p + ws + q` is the replacement of `p`, the separator, then the replacement of `q` |
| `ClassList.SplitOfStrip` | mcp-integration.js:169-170 | the replacement acts token by token: the tokens of the replaced attribute are the replaced tokens, with empty ones dropped |
| `ClassList.SplitOnWhitespace` | mcp-integration.js:170 | the class list's tokens are non-empty and free of ASCII whitespace |
| `ClassList.OrderedSet` | mcp-integration.js:170 | the token set has exactly the members of the token list and has no duplicates |
| `ClassList.SplitJoin` | mcp-integration.js:170 | serialising tokens with single spaces and parsing the result gives the same tokens back |
| `ClassList.AddClass` | mcp-integration.js:170 | for a token the DOM accepts, `classList.add` gives the old class list with the token appended when absent; the token is then present and the list is duplicate-free |
| `ClassList.WithWeatherClass` | mcp-integration.js:169-170 | the replacement followed by `add`; for a `\w+` condition, `weather-<condition>` is then a class of the body |
| `ClassList.WeatherClassReplaced` | mcp-integration.js:169-170 | after the replacement and `add`, `weather-<condition>` is in the class list once. Every other class comes from the stripped attribute. Every class without `weather-<word>` survives. Under the start-of-class hypothesis no other class carries `weather-<word>` |
| `Personalization.SimulatedWeather` | mcp-integration.js:124-143 | by day (6–18 inclusive) the condition is sunny, rainy or cloudy, never clear, at 10–39 °C. At night it is "night", 5–24 °C, "Clear night". The description always comes from the table |
| `Personalization.DaytimeOutcomesReachable` | mcp-integration.js:129-135 | every daytime condition and temperature in those ranges is produced by some pair of random values |
| `Personalization.NightTemperaturesReachable` | mcp-integration.js:136-142 | every night temperature from 5 to 24 is produced by some random value |
| `Personalization.TablesCoverKnownConditions` | mcp-integration.js:11-198 | the theme (lines 11-42), description, icon and modifier (lines 312-318) tables are keyed by exactly the five conditions. A condition outside them (and not a name inherited from `Object.prototype`) gets the default icon and "Pleasant weather" |
| `Personalization.WeatherDescription` | mcp-integration.js:145-154 | the generic "Pleasant weather" is returned exactly for conditions outside the five known ones |
| `Personalization.WeatherIcon` | mcp-integration.js:189-198 | the sun-behind-cloud icon is returned exactly for "clear" and for conditions outside the five known ones |
| `Personalization.SimulatedWeatherIsThemed` | mcp-integration.js:159 | every condition the simulator produces has a theme row and is a non-empty `\w+` word |
| `Personalization.Greeting` | mcp-integration.js:206-218 | Morning iff 5 ≤ h < 12, Afternoon iff 12 ≤ h < 17, Evening iff 17 ≤ h < 21, Night otherwise |
| `Personalization.LocationSuffix` | mcp-integration.js:221-224 | the suffix is non-empty iff a location with a non-empty city exists, and is then " from " + city |
| `Personalization.FilterProjects` | mcp-integration.js:282-285 | a project is kept iff it is for "all" regions, or for "urban" ones while a city is known |
| `Personalization.LocationBasedProjects` | mcp-integration.js:259-286 | the result is the "all" project alone, or all three projects in source order iff a city is known; its length is 1 or 3 |
| `Personalization.TimeBasedHue` | mcp-integration.js:304-307 | the hour's hue lies in [0, 345] and is a multiple of 15 |
| `Personalization.HueChangesEveryHour` | mcp-integration.js:304-307 | distinct hours have distinct hues |
| `Personalization.WeatherColorModifier` | mcp-integration.js:309-321 | the modifier lies in [-45, 30] and is 0 without weather |
| `Personalization.DynamicColorsFor` | mcp-integration.js:288-298 | the primary hue is the hour's hue plus the weather modifier. The secondary and accent hues are 30 and 60 degrees further on. The primary lies in [-45, 375] |
| `Personalization.WithThemeTokens` | mcp-integration.js:163-166 | the style gains exactly the four `--weather-*` properties, each set to its field of the condition's theme row; every other property keeps its value |
| `Personalization.Document.ApplyTheme` | mcp-integration.js:163-170 | the four `--weather-*` tokens of the condition's row are written and the body class becomes the weather-class replacement |
| `Personalization.SmartPersonalization.constructor` | mcp-integration.js:7-10 | weather, location and timezone start out null |
| `Personalization.SmartPersonalization.GetLocationFromIP` | mcp-integration.js:90-106 | a successful lookup stores its location and sets the timezone. A failure stores exactly the default coordinate, with no city, and leaves the timezone alone |
| `Personalization.ResolvedLocation` | mcp-integration.js:61-106 | where the fallback chain ends: a city is known only when geolocation was not granted and the IP lookup answered; with neither, the default coordinate |
| `Personalization.SmartPersonalization.GetUserLocation` | mcp-integration.js:61-88 | a granted position is stored without a city. Without geolocation the IP lookup is awaited. On both paths the chain has then ended. On a geolocation error nothing changes before the promise settles and the lookup is left pending |
| `Personalization.SmartPersonalization.AwaitLocation` | mcp-integration.js:61-106 | `getUserLocation` with the error callback's lookup awaited: on every path the stored location and timezone are where the fallback chain ends |
| `Personalization.SmartPersonalization.SimulateWeatherData` | mcp-integration.js:124-143 | the current weather becomes the simulated weather |
| `Personalization.SmartPersonalization.GetWeatherData` | mcp-integration.js:108-122 | without a location the weather is unchanged; with one it is the simulated weather |
| `Personalization.SmartPersonalization.ApplyWeatherTheme` | mcp-integration.js:156-170 | no-op without weather. A condition that is neither a theme row nor an inherited `Object.prototype` name fails (`theme.primary` throws) before anything is written. Otherwise the tokens and the body class are written |
| `Personalization.SmartPersonalization.SetupTimezoneGreeting` | mcp-integration.js:200-234 | the greeting text is the hour's band, the city suffix and "!" |
| `Personalization.SmartPersonalization.SetupLocationBasedContent` | mcp-integration.js:236-257 | without a location nothing is shown; otherwise the location-based projects are |
| `Personalization.SmartPersonalization.SetupDynamicColors` | mcp-integration.js:288-302 | the colours are computed from the hour and the current weather |
| `Personalization.SmartPersonalization.Personalize` | mcp-integration.js:48-52 | the start-up steps after the location phase, in order: weather only with a location, theme only with weather, greeting, projects and colours from the state at that point |
| `Personalization.SmartPersonalization.InitAsWritten` | mcp-integration.js:46-53 | start-up ends with the location and timezone where the fallback chain ends. Granted or unsupported geolocation: the simulated weather, its theme and class, and greeting, projects and colours from the final state. Denied: no weather, an untouched document, no projects, the cityless greeting and weatherless colours |
| `Personalization.SmartPersonalization.Init` | mcp-integration.js:46-53 | with the fallback awaited, start-up ends with the location and timezone where the fallback chain ends, always sets the simulated weather and applies its theme and class. Greeting, projects and colours use the final location and weather |
| `Personalization.SmartPersonalization.Refresh` | mcp-integration.js:55-58 | the refresh renews weather and greeting and leaves the document as it was |
| `Personalization.SimulatedClassPresent` | mcp-integration.js:169-170 | after the class replacement for a simulated condition, its `weather-<condition>` class is present |
| `Personalization.DeniedGeolocationAsWritten` | mcp-integration.js:74-78 | concrete run, denied at 2 a.m.: no weather and the body class unchanged |
| `Personalization.DeniedGeolocationCorrected` | mcp-integration.js:46-52 | the same run with the fallback awaited: night weather at 5 °C and the `weather-night` class present |
| `ContactForm.IsValidEmail` | script.js:213-216 | `isValidEmail` read character by character; an accepted address has at least five characters, an '@' and no space |
| `ContactForm.ValidEmailMatchesPattern` | script.js:213-216 | `isValidEmail` holds iff all of these hold: no `\s` character, exactly one '@' and not first, a '.' inside the domain that is neither its first nor its last character. This is the same as matching `^[^\s@]+@[^\s@]+\.[^\s@]+$` |
| `ContactForm.CheckContactForm` | script.js:165-173 | "fill in all fields" iff any field is empty, whatever the e-mail. The e-mail error iff all are filled and the address is invalid. Sending iff both checks pass |
| `ContactForm.Notification` | script.js:165-182 | the two check failures are error notifications and the send is a success notification |
| `ContactForm.BlankFieldsReachAddressCheck` | script.js:165-173 | fields are not trimmed: a space-only e-mail with the other fields filled gets the address error |
| `TypingEffect.Typewriter.constructor` | script.js:132-135 | the text is saved, the title emptied and the index set to 0 |
| `TypingEffect.Typewriter.Tick` | script.js:136-142 | while characters remain, the next one is appended and another tick scheduled; otherwise nothing changes. The title always shows the first `i` characters |
| `TypingEffect.Typewriter.RunTicks` | script.js:136-145 | after `k` ticks the title shows the first `min(i + k, |text|)` characters |
| `TypingEffect.Typewriter.RunToCompletion` | script.js:136-145 | the tick chain stops after one tick per remaining character plus one, with the whole text shown |
| `TypingEffect.TypeTitle` | script.js:129-146 | from a fresh start, `k` ticks show `text[..min(k, |text|)]`, and `|text| + 1` ticks show the whole text |
| `Navigation.NavMenu.constructor` | script.js:20-28 | both flags start false. This is an assumption about the page markup: script.js sets no initial state |
| `Navigation.NavMenu.HamburgerClick` | script.js:25-28 | both flags toggle together, so matching flags stay matched |
| `Navigation.NavMenu.LinkClick` | script.js:31-36 | a link click clears both flags |
| `Navigation.NavMenu.EscapeKey` | script.js:356-363 | Escape clears both flags when the menu is active and otherwise changes nothing |
| `Navigation.CurrentSection` | script.js:55-62 | `current` is the id of the last section with `scrollY >= offsetTop - 200`, or '' if none; a missing id gives null |
| `Navigation.CurrentHref` | script.js:66 | the target is '#' followed by the current id, or by "null" for a missing id |
| `Navigation.HighlightNav` | script.js:64-69 | afterwards exactly the items whose href equals the target are active |
| `Navigation.TargetsOfSpecialValues` | script.js:55-66 | with no section reached the target is "#"; a missing id makes it "#null" |
| `Navigation.NextIndex` | script.js:372-377 | ArrowDown gives min(cur + 1, count - 1) and ArrowUp gives max(cur - 1, 0), stated as bounds plus which side is attained |
| `Navigation.ScrollTarget` | script.js:370-381 | nothing is scrolled iff there are no sections. Otherwise the index is in [0, n-1], also when the current section was not found (-1). It is min(cur + 1, n - 1) for ArrowDown and max(cur - 1, 0) for ArrowUp |
| `Navigation.ArrowMovesOneStep` | script.js:372-377 | from a found section a key moves at most one step, in its own direction, and stays put only at the last (down) or first (up) section |
| `ScrollAnimations.TimelineSlideClass` | script.js:97-102 | item i slides in from the left iff i is even and from the right iff i is odd |
| `ScrollAnimations.TimelineClasses` | script.js:96-104 | the items in document order get their parity's class |
| `ScrollAnimations.TimelineAlternates` | script.js:97-102 | the first item is from the left, neighbours alternate, and the pattern repeats every two |
| `ScrollAnimations.LeftItemsAreHalfRoundedUp` | script.js:97-102 | of n timeline items, ⌈n/2⌉ slide in from the left |

## Left out

- DOM rendering is not modelled. Modelled state covers only the body's class attribute
  and the root's four `--weather-*` style properties; the rest is left out:
  - the `innerHTML` of the greeting, the weather indicator and the project cards;
  - the `--dynamic-*` style writes;
  - `showNotification`;
  - the navbar's scroll styling;
  - ripple, parallax, cursor trail, skill bars and the scroll progress bar.
- Browser geolocation and the fetch to the IP service are inputs. A lookup answer
  without coordinates is not represented (latitude and longitude are always numbers here).
- `getCurrentPosition` (mcp-integration.js:66) and the IP `fetch` (mcp-integration.js:92)
  have no timeout. While the permission prompt goes unanswered or the request hangs,
  `init` never resumes past `await this.getUserLocation()` (mcp-integration.js:47):
  no weather, greeting, projects or colours, and no refresh interval. The geolocation
  and lookup outcomes here always arrive, so this hanging start-up is not modelled.
- Start-up reads the clock three times (mcp-integration.js:125, 202, 290). Across an
  hour boundary those reads can differ. The model uses one `hour` for all three.
- The table lookups (mcp-integration.js:153, 159, 197, 320) read plain object literals,
  so a condition named after an `Object.prototype` member (such as "constructor")
  would find an inherited function instead of the fallback. In `applyWeatherTheme` it
  would write `undefined` tokens and add its class instead of throwing. Only simulator
  conditions reach these lookups, and they are all table keys. Such names are not
  modelled: they are treated like any other unknown condition.
- `ClassList.AddClass`: the DOM throws for an empty token or one with white space; the
  model's contract says nothing about such tokens, which `applyWeatherTheme` never adds.
- The OpenWeatherMap URL in `getWeatherData` is built but never fetched, and is not modelled.
- The `catch` of `getUserLocation` (mcp-integration.js:84-87) is not modelled. Its try
  block returns the geolocation promise without awaiting it, and the IP helper catches
  its own failures, so no failure reaches that handler. The default coordinate is
  reached through the IP helper's `catch` instead.
- Timers are steps, not times: the 30-minute interval, the typing delays, the form's
  2-second send delay and the `throttle` helper.
- The refresh is one call of `Refresh`. After the form's send, the form reset and the
  button text are not modelled.
- The clock and the random number generator are parameters: `Hour`, and `Draw` values
  in [0, 1).
- Floating-point scroll arithmetic (progress bar, parallax rates) is left out. Section
  tops and the scroll position are exact numbers here.
- Icons are an enumeration; the emoji strings themselves are not modelled.
- `getCurrentSection` is called at script.js:369 but is not part of this model. The
  index of the current section is a parameter.
- The Tab/mouse `keyboard-navigation` body class, the `fade-in` class and the
  intersection observers are presentation only and are left out.
- JavaScript strings are UTF-16. Here a string is a sequence of `char`, and the typing
  effect reveals one `char` per tick.
- `ClassList.WeatherClassReplaced`: "no other class carries `weather-<word>`" is proved
  only when every match starts a class name. The unanchored regular expression also
  cuts such text out of longer class names; the other parts of the lemma hold
  unconditionally.

## Findings

| source | as written | input that shows it | evidently intended | confidence | as-written member | corrected member |
|---|---|---|---|---|---|---|
| mcp-integration.js:74-78 | on a geolocation error the callback starts `getLocationFromIP()` without awaiting it and resolves at once; `init` then runs `getWeatherData` with no location, so no weather, theme, weather class or project list is produced. The 30-minute refresh later sets weather but never applies the theme | geolocation permission denied, IP lookup succeeding (e.g. London), hour 2 | the IP fallback completes before the weather is simulated, as on the no-geolocation path (line 82), so a denied visitor gets the night theme and `weather-night` class | not executed | `Personalization.SmartPersonalization.InitAsWritten`, `Personalization.DeniedGeolocationAsWritten` | `Personalization.SmartPersonalization.Init`, `Personalization.DeniedGeolocationCorrected` |
