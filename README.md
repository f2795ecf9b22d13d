# Mapty workout model in Dafny

Mapty is a browser workout logger: the user clicks a point on a map, fills in a
form, and the app records a running or cycling workout at that point, lists it,
marks it on the map and keeps the list in browser storage. This project models
the logic in `js/script.js` that does not depend on the browser:

- the workout records (`Workout`, `Running`, `Cycling`) with their derived
  fields: pace, speed, the description "<Type> on <Month> at <day>" and the id
  (the last ten characters of the creation timestamp);
- the rule `_newWorkOut` uses to accept or refuse a form submission, built
  from `checkInputs` and `allPositive`;
- the session list that an accepted submission appends to and writes to storage;
- the lookup by id that a click on the workout list performs.

Layout, one module per file:

- `options.dfy` (`Options`): the optional-value datatype.
- `js_numbers.dfy` (`JsNumbers`): JavaScript numbers as parsed from the form.
  A finite number is an exact real. `NaN`, `+Infinity` and `-Infinity` are
  separate cases because `x < 0` and `!x` treat them differently.
- `decimal.dfy` (`Decimal`): number-to-string conversion for non-negative
  integers, `slice(-k)`, and reading a numeral back.
- `workouts.dfy` (`Workouts`): the record datatype and its constructors, the
  month table, the description and the id. It also has a description parser
  (`ParseDescription`), used only to state that a description can be read back.
- `validation.dfy` (`Validation`): the two helpers and the per-type guards.
- `app.dfy` (`Mapty`): the `App` class with its three fields. `Submit` is the
  pure decision that `NewWorkout` carries out. The file also has the `find`
  lookup and a short client session.

A record never changes after construction. So it is a datatype value, and the
constructors `new Running(...)` and `new Cycling(...)` are the functions
`NewRunning` and `NewCycling`. The clock reads (`new Date()`, `Date.now()`) and
the parsed form numbers are parameters. `App` is a class because its handlers
update `#workoutsArr` and `#mapEvent` in place.

Both guards refuse bad input with the alert 'inputs Have to be Positive
Number' (js/script.js:156, 171), but the cycling guard does not check the sign
of the elevation gain: `allPositive` gets only distance and duration
(js/script.js:166). The model follows the code, and
`Validation.NegativeThirdValue` shows that a negative elevation gain is
accepted while a negative cadence is refused.

`calcSpeed` divides the distance by the duration (js/script.js:53-56), and the
duration is entered in minutes, so `speed` is in km per minute even though the
workout list labels it km/h (js/script.js:239). The model keeps the source's
formula.

## Model

| member | source | states |
|---|---|---|
| `JsNumbers.IsFinite` | js/script.js:134 | `Number.isFinite` is false exactly for NaN, +Infinity and -Infinity |
| `JsNumbers.IsNegative` | js/script.js:136 | `x < 0` holds exactly for a negative finite value and for -Infinity; NaN compares false |
| `JsNumbers.Truthy` | js/script.js:152-154 | `!x` is true exactly for NaN and zero (either sign), so a number is truthy otherwise |
| `Decimal.DecimalString` | js/script.js:14 | the numeral of a timestamp is non-empty, all digits and has no leading zero |
| `Decimal.ParseDecimalString` | js/script.js:14 | reading a rendered numeral back gives the original number |
| `Decimal.SliceLast` | js/script.js:14 | `slice(-k)` returns a suffix of its input; for `k` of at least one it keeps exactly `k` characters of a longer input and all of a shorter one, and `slice(-0)` keeps the whole input |
| `Decimal.SuffixValue` | js/script.js:14 | the last `k` digits of a numeral read as its value modulo 10^k |
| `Workouts.Title` | js/script.js:25 | the type name with its first character upper-cased is "Running" for a run and "Cycling" for a ride |
| `Workouts.Description` | js/script.js:21-28 | the description determines the type, the month index in the 12-name table and the day: parsing it back gives exactly those |
| `Workouts.WorkoutId` | js/script.js:14 | the id is all digits and reads as the creation timestamp modulo 10^10 |
| `Workouts.CalcPace` | js/script.js:39-42 | pace times distance gives back the duration, so pace is duration over distance; it is positive for positive inputs |
| `Workouts.CalcSpeed` | js/script.js:53-56 | speed times duration gives back the distance, so speed is distance per minute of duration (km/min, although the list says km/h); it is positive for positive inputs |
| `Workouts.NewRunning` | js/script.js:31-38 | a running record is of the running type, keeps coords, distance, duration and cadence as given, takes its id from the timestamp, its pace from `CalcPace` and its description from the date |
| `Workouts.NewCycling` | js/script.js:45-52 | a cycling record is of the cycling type, keeps coords, distance, duration and elevation gain as given, takes its id from the timestamp, its speed from `CalcSpeed` and its description from the date |
| `Workouts.RunningRecord` | js/script.js:31-42 | for positive inputs a running record has pace equal to duration over distance and positive, a description that reads back as (running, date), and an id of at most ten digits whose value is the timestamp modulo 10^10 |
| `Workouts.CyclingRecord` | js/script.js:45-56 | for positive inputs a cycling record has speed equal to distance over duration and positive, a description that reads back as (cycling, date), and an id of at most ten digits whose value is the timestamp modulo 10^10 |
| `Workouts.ParseDescriptionExact` | js/script.js:21-28 | only descriptions parse: any text that reads back as a type and a date is exactly the description of that type and date, so the day has no leading zero |
| `Decimal.CanonicalNumeral` | js/script.js:27 | a digit string without a leading zero is the decimal numeral of the number it reads as, as `getDate()` prints the day |
| `Workouts.DescriptionExample` | js/script.js:21-28 | a running workout in month 0 on day 5 is described as "Running on January at 5" |
| `Workouts.IdShape` | js/script.js:14 | the id is the last ten characters of the timestamp's numeral, leading zeros kept (1000000000005 gives "0000000005"), or the whole numeral when it is shorter; it is the whole numeral exactly when the timestamp is below 10^10 |
| `Workouts.LastDigitsValue` | js/script.js:14 | the last `k` characters of any number's numeral read as the number modulo 10^k |
| `Workouts.IdsDistinct` | js/script.js:14 | two different timestamps less than 10^10 ms apart give different ids |
| `Validation.CheckInputs` | js/script.js:133-134 | `checkInputs` holds exactly when every input is finite |
| `Validation.AllPositive` | js/script.js:135-136 | `allPositive` holds exactly when no input compares below zero; NaN and +Infinity pass, -Infinity fails |
| `Validation.RunningInputsAccepted` | js/script.js:146-156 | the running guard passes exactly when distance, duration and cadence are all finite and strictly positive |
| `Validation.CyclingInputsAccepted` | js/script.js:161-171 | the cycling guard passes exactly when distance and duration are finite and strictly positive and the elevation gain is finite and non-zero, of either sign |
| `Validation.InputsAccepted` | js/script.js:146-171 | the guard of the selected type; when it passes, distance and duration are finite and positive, the cadence of a run is finite and positive and the elevation gain of a ride is finite |
| `Validation.NegativeThirdValue` | js/script.js:149-171 | with valid distance and duration, a negative elevation gain is accepted while a negative cadence is refused |
| `Mapty.Submit` | js/script.js:132-174 | with no map click yet the submit fails before validation; otherwise it creates a record exactly when the type's guard passes, and that record has the selected type, the clicked coordinates, the timestamp's id, the date's description, the submitted numbers, and the pace (run) or speed (ride) computed from them |
| `Mapty.SubmitAcceptsExactly` | js/script.js:143-172 | given a click, a record is created exactly when distance and duration are finite and positive and, for a run, the cadence is finite and positive, or, for a ride, the elevation gain is finite and non-zero |
| `Mapty.SubmitExample` | js/script.js:146-157 | a 5 km, 25 min run at cadence 180 is created at the clicked point with a pace of 5 min/km |
| `Mapty.FindById` | js/script.js:253-255 | the lookup finds nothing exactly when no workout has the id; otherwise it yields the workout at the first index with that id |
| `Mapty.FindAfterAppend` | js/script.js:253-255 | appending a record leaves every earlier match in place and only makes the new record findable by its own id |
| `Mapty.NewestIsFound` | js/script.js:253-255 | a newly appended record whose id is not already in the list is what a lookup by that id returns |
| `Mapty.App.constructor` | js/script.js:268-273 | a new app adopts the saved list when storage has one and starts empty otherwise, has no pending click, and the storage mirrors the list |
| `Mapty.App.ShowForm` | js/script.js:100-101 | a map click becomes the pending click; the list and the storage are unchanged |
| `Mapty.App.NewWorkout` | js/script.js:132-184 | follows `Submit`. An accepted submission appends exactly one record at the end, keeps every earlier entry, and writes the new list to storage. A refused or failed one changes neither the list nor the storage. The pending click stays, and storage keeps mirroring the list |
| `Mapty.App.MoveToMarker` | js/script.js:250-262 | a click outside a workout item does nothing; otherwise the map pans to the coordinates of the first workout with the item's id, and the lookup fails exactly when no workout has that id |

## Left out

- DOM work is not modelled: form show, hide and reset, field focus, the `setTimeout` in `_hideForm` and `_toggleElevField` (js/script.js:3-10, 102-130). It is presentation, apart from the one line noted under `Mapty.App.NewWorkout` below.
- The Leaflet map is an external library, so it is not modelled: map creation, tiles, markers and popups (js/script.js:89-98, 185-201). `MoveToMarker` returns the point `setView` would pan to instead of calling it.
- Geolocation and `alert` are host I/O. A refused submission is the `Rejected` outcome, with no alert.
- Storage is modelled as the value last written under the key. JSON serialisation, the lost class identity of loaded records and the clear button with `location.reload` (`_controllBtn`) are not modelled (js/script.js:120-125, 265-273).
- List-item HTML and the `toFixed(1)` rounding are presentation and floating-point formatting, so they are not modelled (js/script.js:203-248).
- The form's string-to-number conversion (`+input.value`, `Number(...)`) is not modelled. Its results are the `JsNumber` parameters. An empty field, which converts to 0, is one such input and is refused.
- Numbers are exact reals. IEEE-754 rounding of pace and speed is not modelled, and neither is the sign of zero.
- The two clock reads `new Date()` and `Date.now()` are independent parameters. Of the date, the model keeps only the month index and the day of month that the description reads.
- The workout type is a two-value enum. The source's path for any other type value, which pushes `undefined`, is not modelled (js/script.js:144, 174).
- The `App` constructor's handler registration and geolocation request are not modelled (js/script.js:70-77).
- Mapty.App.NewWorkout: assumes `_hideForm` returns normally. It runs after the `push` and before `_setLocalStorage` (js/script.js:174-183), and its first line assigns to `form.computedStyleMap.display` (js/script.js:109). In a browser without `computedStyleMap` that line throws, so the list grows but storage is not written and `InSync` no longer holds. The model does not capture that path.
- Workouts.NewRunning: requires a non-zero distance, because real division is undefined there; JavaScript would store Infinity or NaN. The only caller checks the inputs first.
- Workouts.NewCycling: requires a non-zero duration, for the same reason.
- Decimal.DecimalString: covers plain decimal numerals only; JavaScript switches to exponent notation at 10^21, far beyond any timestamp.
- Workouts.Capitalise: upper-cases ASCII letters only, which is all the two type names need; full Unicode `toUpperCase` is not modelled.
