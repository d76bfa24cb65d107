# HYDRA dashboard: energy and weather normalisers in Dafny

The dashboard fetches two kinds of data and reshapes them on the client before anything is drawn:

- **Weather** (`getWeatherData`). The backend answers with parallel daily columns: `time`, maximum and minimum temperature, precipitation sum and weather code. These are zipped by index into one `WeatherData` per day. Each record holds the date, the mean temperature rounded to one decimal with `Math.round`, a category string from the weather-code classifier, and the precipitation. `humidity` is never set. Any failure is masked: a transport error, a response without `daily` or `daily.time`, or a missing column that the per-day step reads. In each case the caller gets generated fallback data for the same date range, so no error ever reaches it.
- **Energy** (`getEnergyData`). Each day-binned aggregate row of the sensor backend becomes an `EnergyData` record. It holds a `year-month-day` date with month and day padded to two digits, `kWh = (max - min) / 1000`, and the original row. A failure is surfaced as a single error. That error carries the backend's `message` when it is truthy, and otherwise the text "Error fetching energy data".

The model has four modules:

- `Wrappers` holds `Option`.
- `Text` models JavaScript's `String(n)` for integral numbers and `padStart`, plus a digit parser used only in proofs.
- `WeatherService` and `EnergyService` each model one service file.

Both service files are pure transformations. They are modelled as datatypes and functions, with lemmas about them. The outcome of each HTTP request is an input value (`Fetch`, `EnergyResponse`). The weather fallback generator is a function-typed parameter `mock`.

Edge cases of the code that the model keeps:

- A negative weather code is classified as "partly cloudy", because the first test after `code === 0` is `code <= 3`.
- An empty `message` falls back to the fixed text, because `||` tests truthiness.
- An empty `daily.time` array passes the validity guard, since an empty array is truthy. It then produces an empty live list, not the fallback.
- A column that is absent altogether throws inside the `map` when `time` is non-empty, so the fallback is used.
- A code column shorter than `time` gives `getWeatherCondition(undefined)`. Every comparison with `undefined` is false, so those days are "varied conditions".
- A precipitation column shorter than `time` leaves `precipitation` undefined for those days.
- A 2xx energy reply whose body is not a list, or holds a `null` row, throws a `TypeError` inside the `try`. That error has no `response`, so the error carries the fixed text.

## Model

| member | source | states |
|---|---|---|
| `WeatherService.Classify` | src/services/weatherService.ts:70-80 | each category as an if-and-only-if over closed code intervals: 0 is "clear skies"; negatives and 1..3 are "partly cloudy"; 4..48 foggy; 49..67 rainy; 68..77 snowy; 78..82 rain showers; 83..86 snow showers; 87..99 thunderstorms; above 99 "varied conditions" |
| `WeatherService.ClassifyByBands` | src/services/weatherService.ts:71-79 | for a non-negative code the category is the band whose index counts the inclusive upper bounds 0,3,48,67,77,82,86,99 lying below the code (an independent table reading of the if-chain) |
| `WeatherService.ClassifyMonotone` | src/services/weatherService.ts:71-79 | the bands are ordered: for 0 <= a <= b the category of a comes no later in the band order than that of b |
| `WeatherService.ClassifyBoundaries` | src/services/weatherService.ts:71-79 | the boundary codes 0,1,3,4,48,49,67,68,77,78,82,83,86,87,99,100 and -1 map to their categories |
| `WeatherService.MathRound` | src/services/weatherService.ts:54 | `Math.round(x)` is an integer in (x - 1/2, x + 1/2] |
| `WeatherService.MathRoundUnique` | src/services/weatherService.ts:54 | that integer is unique, so halves round towards +infinity |
| `WeatherService.RoundTenth` | src/services/weatherService.ts:54 | `Math.round(x*10)/10` lies in (x - 0.05, x + 0.05] and is a whole number of tenths |
| `WeatherService.RoundTenthUnique` | src/services/weatherService.ts:54 | any whole number of tenths in (x - 0.05, x + 0.05] equals the rounded value |
| `WeatherService.RoundTenthExact` | src/services/weatherService.ts:54 | a mean that is already a multiple of 0.1 is unchanged |
| `WeatherService.RoundTenthIdempotent` | src/services/weatherService.ts:54 | rounding a rounded temperature changes nothing |
| `WeatherService.RoundTenthHalves` | src/services/weatherService.ts:54 | 0.25 rounds to 0.3 and -0.25 to -0.2 (half up, as `Math.round`) |
| `WeatherService.IsInvalid` | src/services/weatherService.ts:44 | the guard rejects exactly a response without `daily` or without `daily.time`; an empty `time` array passes it, being truthy |
| `WeatherService.ClassifyReading` | src/services/weatherService.ts:50 | a present code is classified by `Classify`; an `undefined` code, read past the end of the column, is "varied conditions" |
| `WeatherService.DayRecord` | src/services/weatherService.ts:48-57 | the callback's record keeps the date, has a temperature within 0.05 of the mean of max and min and a whole number of tenths, the category of the code, the precipitation reading, and no humidity |
| `WeatherService.Normalize` | src/services/weatherService.ts:42-60 | the live path throws (`None`) exactly when `daily` or `daily.time` is missing, or `time` is non-empty and a column is absent; otherwise one record per `time` entry in order, with entry i holding `time[i]`, the rounded mean of max/min i (within 0.05 of it), the category of `weathercode[i]` ("varied conditions" past the column's end), `precipitation_sum[i]` (none past the column's end) and no humidity |
| `WeatherService.GetWeatherData` | src/services/weatherService.ts:26-67 | a transport failure or a throwing live path yields exactly `mock(fromDate, toDate)`; otherwise the live records with all the per-day properties; there is no error result |
| `WeatherService.InvalidGivesFallback` | src/services/weatherService.ts:44-46 | a response without `daily` or `daily.time` yields exactly the fallback for the same range |
| `WeatherService.CompleteResponseIsLive` | src/services/weatherService.ts:48-60 | a response with every column present never throws: the result is the live list that `Normalize` produces, with all its per-day properties, never the fallback |
| `WeatherService.ShortColumnsReadUndefined` | src/services/weatherService.ts:50-56 | a day past the end of short code and precipitation columns is still a live record, "varied conditions" with no precipitation |
| `Text.NatStr` | src/services/energyService.ts:53 | `String(n)` of a non-negative integer is a non-empty digit string, one character exactly for n < 10, without a leading zero unless n is 0 |
| `Text.IntStr` | src/services/energyService.ts:53 | `String(n)` starts with '-' exactly for negative n; for n >= 0 it is the decimal form of n and reads back as n; for n < 0 the '-' is followed by the decimal form of -n, which reads back as -n |
| `Text.PadStart` | src/services/energyService.ts:53 | `padStart(w, f)` keeps the string as its suffix and puts only fill characters in front, up to length w |
| `Text.ValueNatStr` | src/services/energyService.ts:53 | the decimal rendering reads back as the number |
| `Text.NatStrLength` | src/services/energyService.ts:53 | a number with k digits renders as exactly k characters |
| `EnergyService.Pad2` | src/services/energyService.ts:53 | `String(n).padStart(2,'0')` prefixes "0" exactly when 0 <= n < 10, and otherwise is `String(n)` unchanged |
| `EnergyService.FormatDate` | src/services/energyService.ts:53 | the date is the year, the padded month and the padded day joined by dashes: its length is theirs plus two, with a dash right after the year and right after the month; with `DateRoundTrip` the fields read back |
| `EnergyService.Pad2Width` | src/services/energyService.ts:53 | for 0..99 the padded field is exactly two digits |
| `EnergyService.Pad2Value` | src/services/energyService.ts:53 | for n >= 0 the padded field reads back as the number |
| `EnergyService.IsoShape` | src/services/energyService.ts:53 | a four-digit year with month 1..12 and day 1..31 gives `YYYY-MM-DD`: 10 characters, dashes at 4 and 7, digits elsewhere |
| `EnergyService.NoCalendarCheck` | src/services/energyService.ts:53 | month 13 and day 32 are formatted unchecked ("2025-13-32"); 2025/3/1 gives "2025-03-01" |
| `EnergyService.DateRoundTrip` | src/services/energyService.ts:53 | for non-negative fields, parsing the formatted date returns the year, month and day |
| `EnergyService.DateInjective` | src/services/energyService.ts:53 | distinct non-negative (year, month, day) triples give distinct date strings |
| `EnergyService.KWh` | src/services/energyService.ts:54 | kWh times 1000 is max - min; non-negative when max >= min, positive when max > min |
| `EnergyService.FormatRecord` | src/services/energyService.ts:52-56 | each display record keeps its source row unchanged as `raw` |
| `EnergyService.FormatAll` | src/services/energyService.ts:52-56 | same length as the rows; entry i has `raw == data[i]`, the formatted date of row i and the kWh of row i |
| `EnergyService.ErrorMessage` | src/services/energyService.ts:61 | the message is never empty; it is the backend message when that is non-empty, and otherwise "Error fetching energy data" |
| `EnergyService.GetEnergyData` | src/services/energyService.ts:29-62 | success exactly when the request returned a list of rows without `null` entries; then one record per row, in order, each keeping its row as `raw`; a failed request throws the chosen backend message; a non-list body or a `null` row throws the fixed text; never a partial list |
| `EnergyService.FailureKeepsBackendMessage` | src/services/energyService.ts:61 | a failure with message "boom" throws "boom"; no message or an empty one throws the fixed text |
| `EnergyService.MalformedBodyGivesFixedMessage` | src/services/energyService.ts:52-61 | a reply with a `null` row, or a body that is not a list, ends in an error with the fixed text |

## Left out

- Network calls are not modelled. This covers `axios.get` and `axios.post` in both services, the authentication client (`src/services/auth.ts`) and the HTTP client configuration (`src/plugins/hydra.ts`). The request's outcome is an input value. A `null` weather response body, which makes the `daily` destructuring throw, is folded into `Fetch.Failed`. An energy reply body is either a list of rows, each a row or `null` (`Received`), or any value that is not a list (`ReceivedNonList`). A row object with missing fields is not modelled; the template would render `undefined`.
- The fallback weather generator `generateMockWeatherData` uses `Math.random`, `Math.sin` and `Date` arithmetic with time-zone effects. It is the parameter `mock`. Its own promises are not modelled: one record per day of the range, dates ascending.
- The serverless proxy (`api/hydra-energy.ts`), the route table and the build-tool proxy configuration are plumbing and are not modelled.
- The `console.error` logging is left out.
- Floating point is not modelled. Temperatures and energies are `real`, so IEEE rounding in `Math.round(x*10)/10` and in `/1000` is not captured.
- Normalize: requires each temperature column that is present to have an entry for every day of `time`. A shorter temperature column makes the source add `undefined` and round a `NaN`, which `real` cannot express. Short code and precipitation columns are modelled.
- GetWeatherData: carries the same requirement on a received response, for the same reason.
- A JSON `null` inside a weather column is not modelled; the columns hold numbers or end early. In JavaScript a `null` code passes `code <= 3` and gives "partly cloudy", and a `null` temperature counts as 0 in the sum.
- Weather codes and the energy `year`, `month` and `day` are integers. The source's `number` type also admits fractions, which `String(n)` would render with a decimal point. `NatStr` and `IntStr` use unbounded integers: they do not capture the exponent form `String(n)` uses from 1e21 in magnitude, nor the loss of exactness above 2^53.
- ErrorMessage: takes the backend `message` as an optional string. A non-string truthy `message` (a number, an object) would be converted by `new Error`; that is not modelled.
- DateRoundTrip: holds only for non-negative fields. A negative month or day renders with a '-' sign and makes the dashes ambiguous.
