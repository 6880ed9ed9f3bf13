# Mapty workout core in Dafny

A model of the workout logic of the Mapty activity tracker (`script.js`): the input
checks that decide whether a form submission creates a workout, the `Running` and
`Cycling` workouts with their derived pace or speed, their id and description, the
append-only workout list with its lookup by id, and the single storage slot the list is
saved to and reloaded from.

Modules:

- `Options` (`options.dfy`): `Option`, standing for `undefined` from `find` and `null`
  from `localStorage`.
- `Numbers` (`numbers.dfy`): JavaScript numbers as finite reals, NaN, +Infinity and
  -Infinity; `validInputs` and `allPositive`.
- `Digits` (`digits.dfy`): the decimal notation JavaScript gives an integer, its value,
  and `slice(-k)`.
- `Workouts` (`workouts.dfy`): workout kinds, the month table, descriptions (with a
  parser used to prove they are unambiguous), ids, the two constructors, and
  well-formedness.
- `App` (`app.dfy`): the form, the state (`#workouts` plus the storage slot),
  `_newWorkout`, `find`, save, load, start-up, and whole sessions of submissions.

The clock is a parameter. Each submission carries a `Moment`: the month index and day of
month that `new Date()` reports, and the milliseconds `Date.now()` reports. The map click
is a parameter too (`Coords`). Numbers are exact reals.

Behaviour worth knowing:

- A zero elevation gain is refused: `allPositive` tests `inp > 0` on the elevation gain
  too (script.js:200-201), just as on cadence (`App.Accepts`).
- +Infinity passes `allPositive` and is refused only by `validInputs`. Zero passes
  `validInputs` and is refused only by `allPositive` (`Numbers.GateIsFinitePositive`).
- Malformed text in the slot makes start-up throw: `JSON.parse` has no `try`
  (script.js:315). The model's slot holds either nothing or a list, so malformed text
  cannot arise in it.
- A lookup miss throws: when `find` gives `undefined`, reading `workout.coords` on it
  throws a TypeError (script.js:297-299) before `setView` is called. `App.Find` returns
  `None`; what follows it is not modelled.
- The id is the last ten digits of the timestamp. Ids therefore repeat every 10^10 ms,
  about 115 days. Two workouts created exactly that far apart share an id, and a lookup
  then finds the older one (`App.FindAfterIdRepeat`).
- A stored empty list is truthy in JavaScript, so loading it replaces the list.

## Model

| member | source | states |
|---|---|---|
| Numbers.ValidInputs | script.js:14 | true exactly when every input is finite (`Number.isFinite`); true of no inputs |
| Numbers.AllPositive | script.js:15 | true exactly when every input compares greater than 0: a positive finite number or +Infinity; NaN, -Infinity and 0 fail |
| Numbers.GateIsFinitePositive | script.js:14-15 | both checks together accept exactly the all-finite, all-positive inputs; +Infinity passes only the positivity check, 0 only the finiteness check |
| Numbers.GateOfThree | script.js:189-190 | on three inputs, the combined check holds exactly when each of the three is finite and positive |
| App.Accepts | script.js:186-201 | a form is accepted exactly when distance, duration and the input of the selected type (cadence for running, elevation gain for cycling) are finite and strictly positive; the other type's input is ignored |
| App.Build | script.js:186-204 | an accepted form yields a well-formed workout of the selected type, storing the coordinates, moment, distance, duration and the type's own input |
| App.NewWorkout | script.js:171-220 | a refused form leaves list and slot unchanged; an accepted one grows the list by one, keeps every earlier entry, puts the new workout last, and leaves the slot holding the new list |
| Workouts.NewRunning | script.js:49-64 | a run stores its inputs, its pace times its distance is its duration, its pace is positive for positive inputs, and it is well formed for positive inputs |
| Workouts.NewCycling | script.js:69-84 | a ride stores its inputs, its speed equals 60 times distance over duration (km/h from minutes), its speed is positive for positive inputs, and it is well formed for positive inputs |
| Workouts.SpeedFormula | script.js:81-83 | `distance / (duration / 60)` equals 60 times distance over duration, times duration gives 60 times distance, and is positive for positive inputs |
| Workouts.ConstructionExamples | script.js:61-83 | a 5 km run in 25 minutes has pace 5; a 20 km ride in 60 minutes has speed 20 |
| Workouts.WellFormedIsConstructed | script.js:53-83 | a well-formed workout equals what its type's constructor builds from its stored inputs, so stored pace, speed, id and description agree with recomputation |
| Workouts.Capitalize | script.js:36 | the first character becomes its upper-case form; the length and every later character are kept |
| Workouts.Describe | script.js:32-37 | the description is "Running" or "Cycling", then " on ", the month name, a space, and the day in decimal |
| Workouts.DescriptionExample | script.js:34-36 | April 14 gives "Running on April 14"; December 5 gives "Cycling on December 5" (month index 11 is in bounds) |
| Workouts.DescriptionRoundTrip | script.js:32-37 | reading a description back recovers the type, the month and the day it was made from |
| Workouts.DescriptionInjective | script.js:32-37 | two equal descriptions come from the same type, month and day |
| Workouts.IdOf | script.js:24 | an id is one to ten decimal digits |
| Digits.Last | script.js:24 | for k > 0 this is `slice(-k)`: the last k characters, or the whole string when it is shorter (only k = 10 is used) |
| Digits.ToDecimal | script.js:24 | the decimal notation has at least one digit and starts with 0 only for zero |
| Digits.ValueOfDecimal | script.js:24 | reading the decimal notation back gives the number |
| Digits.ValueOfLastDigits | script.js:24 | the last k digits of a number's notation denote the number modulo 10^k |
| Workouts.IdValue | script.js:24 | read as a number, an id is the timestamp modulo 10^10 |
| Workouts.IdLength | script.js:24 | from timestamp 10^9 on, every id has exactly ten digits |
| Workouts.IdsEqualIff | script.js:24 | from timestamp 10^9 on, two ids are equal exactly when the timestamps agree modulo 10^10 |
| Workouts.IdRepeats | script.js:24 | timestamps 10^10 ms apart (from 10^9 on) give the same id |
| Workouts.IdsDistinctWithinPeriod | script.js:24 | timestamps less than 10^10 ms apart give different ids |
| App.Find | script.js:297 | finds nothing exactly when no workout has the id; otherwise finds the earliest workout in list order with that id |
| App.FindAfterAppend | script.js:297 | appending does not change an earlier hit; after a miss, the lookup finds the appended workout exactly when its id matches |
| App.FindNewWorkout | script.js:297 | after an accepted submission whose id is new to the list, looking up that id finds the new workout |
| App.FindAfterIdRepeat | script.js:297 | a workout created 10^10 ms after another shares its id, and looking it up finds the older one |
| App.Save | script.js:310-312 | saving leaves the list as is and makes the slot hold the whole list |
| App.Load | script.js:314-324 | an empty slot leaves the list unchanged; a stored list, even an empty one, replaces it; the slot is unchanged |
| App.Start | script.js:97-102 | start-up shows the stored list, or an empty list when nothing is stored |
| App.ValidPreserved | script.js:171-220 | save, load and a submission keep every workout in the list and the slot well formed |
| App.DurableAfterStartAndSave | script.js:310-319 | right after start-up, and after any save, a reload would show the current list |
| App.DurablePreserved | script.js:207-219 | a submission keeps "a reload shows the current list" true |
| App.SubmitAllAppends | script.js:207 | a session of submissions appends exactly the workouts of the accepted ones, in submission order |
| App.SubmitAllDurable | script.js:219 | a session of submissions keeps "a reload shows the current list" true |
| App.SessionSurvivesReload | script.js:314-319 | after start-up from a slot and any session, a reload shows the stored history followed by the accepted workouts |

## Left out

- DOM access, showing and hiding the form, toggling the elevation field, and `setTimeout`: user interface. `_newWorkout` is bound to any click on the form, and the model treats every call as a submission attempt.
- Reading the inputs (`+input.value`, so an empty field reads as 0): string-to-number conversion. The model takes the resulting numbers.
- The Leaflet map, markers, popups, `setView` in `_moveToPopup`, and `navigator.geolocation`: foreign library and browser APIs. Coordinates come in as a parameter.
- HTML rendering in `_renderWorkout` and `toFixed(1)`: presentation and float formatting.
- `JSON.stringify`, `JSON.parse` and `localStorage` internals. The slot is `Option<seq<Workout>>`. The model does not show that a reloaded `date` becomes a string, or that reloaded objects lose their class.
- `_deleteLocaleStorage`, which reloads the page, and `_click`, which is never called.
- Real `Date` behaviour and IEEE-754 rounding. Month, day and timestamp are parameters, and arithmetic is exact.
- A type value other than "running" or "cycling". Then `_newWorkout` would push `undefined`, but the form's selector offers only those two values.
- Workouts.NewRunning: requires a non-zero distance and does not model the Infinity or NaN pace a zero distance gives, because exact reals have no division by zero and the only caller passes positive distances.
- Workouts.NewCycling: requires a non-zero duration for the same reason.
- Workouts.UpperCase: handles ASCII letters only, not all of `toUpperCase`, because the only strings capitalised are "running" and "cycling".
