# Logistics game: route creation, modelled in Dafny

The logistics game lets players register cities, vehicles and routes. When
a route is created, the server asks a directions service for the driving
distance between two cities. It then computes the route's cost (fuel,
maintenance and time), its travel time, and its revenue, and stores the
route. This project models that computation and the route-creation
request around it, all from `routes/create.js`, and proves properties of
the model.

JavaScript numbers are reals with an explicit NaN (`Numbers.Num`).
JavaScript `null`/`undefined` become `Option.None`. JavaScript truthiness
(`!x`) is `Numbers.Truthy`, and `x || y` is `Numbers.Or`. The network call, the database
lookups and the store's verdict on a save are inputs to the model.

Modules, leaves first:

- `Numbers` (numbers.dfy): `Num`, truthiness, arithmetic with NaN, `Math.floor`/`Math.round`, and `%` with divisor 60 (`Trunc` is the truncation inside `%`).
- `Entities` (entities.dfy): `City`, `Vehicle`, `RouteRecord`. `Vehicle` has an optional `fuelPrice` field: the cost formula reads `vehicle.fuelPrice`, but the vehicle schema (`models/Vehicle.js`) defines only `fuelCost`, so a stored vehicle never has it (`StoredVehicle`).
- `Directions` (directions.dfy): turns a directions answer into kilometres (`getDistance` without the HTTP call).
- `Costing` (costing.dfy): `calculateCost` and `calculateRevenue`.
- `Duration` (duration.dfy): `formatTime` as numbers (`Split`) and kept segments (`Layout`, `FormatTime`).
- `DurationText` (durationtext.dfy): the text `formatTime` builds and trims, plus a parser that reads it back.
- `RouteCreation` (routecreation.dfy): the `POST /route` handler as a pure function from lookups, two directions answers and a store verdict to a reply.

What the proofs bring out about the code as written:

- A stored vehicle has no `fuelPrice`, so the computed total cost is always NaN. The stored cost is therefore always the fallback `distance * fuelCost`.
- `vehicle.regularLoad` is read before the null check. A missing vehicle ends on the catch-all 500 reply, never on the 400 reply.
- The handler calls the directions service twice: once itself, and once inside the cost computation. If the second call fails, destructuring its null result throws, and the reply is the catch-all 500.
- `formatTime` rounds the seconds and does not carry them. 59.5 seconds print as "60 seconds", and 60 minutes 59.5 seconds as "1 hours 0 minutes 60 seconds". For a non-negative time, hours, minutes and seconds still add up to `Math.round(60 t)` seconds.
- A NaN revenue (for example a regular load of 0) is not checked before the route goes to the store.

Two more consequences of the code:

- A malformed identifier makes `findById` throw, so the reply is the catch-all 500, not 400.
- The revenue check bounds the load factor (load divided by capacity) to [0, 1], not the load itself. For a positive capacity this means 0 < load <= capacity (`RevenueValidForPositiveCapacity`). With a negative capacity, a negative load passes (`NegativeLoadAcceptedWithNegativeCapacity`).

## Model

| member | source | states |
|---|---|---|
| Numbers.FalsyValues | routes/create.js:165 | the numbers `!x` treats as missing are exactly zero and NaN |
| Numbers.Or | routes/create.js:173-180 | the logical-or fallback gives the left operand when it is truthy and the right one otherwise, so it is truthy exactly when one operand is |
| Numbers.Mod60 | routes/create.js:118 | `timeInMinutes % 60` takes the sign of the dividend: in [0, 60) for a non-negative time, in (-60, 0] for a negative one, and differs from the time by a whole multiple of 60 |
| Numbers.Round | routes/create.js:119 | `Math.round` lands within half a unit of its argument |
| Directions.ResolveDistance | routes/create.js:25-39 | a distance exists exactly when the call answered with a non-empty route list whose first route has a leg; that distance times 1000 is the first leg's metres; otherwise null |
| Directions.UsableMeansTruthy | routes/create.js:46 | `!distance` rejects a lookup exactly when it gave null or zero: a distance is usable exactly when it is truthy |
| Directions.FirstLegOnly | routes/create.js:29-31 | alternative routes and further legs never change the distance |
| Directions.ZeroLegIsUnusable | routes/create.js:30 | a zero-metre first leg gives a distance the `!distance` tests treat as failure |
| Costing.CalculateCost | routes/create.js:43-75 | no result exactly when the distance is missing or zero; the time is a number exactly when speed is non-zero, with time times speed equal to 60 times distance; the total is a number exactly when `fuelPrice` is present and efficiency and speed are non-zero, and then equals fuel plus maintenance plus time cost |
| Costing.TotalCostAgreesWithTime | routes/create.js:60-68 | the total cost is fuel plus maintenance plus `timeInMinutes / 60` times the hourly rate |
| Costing.CostScalesWithDistance | routes/create.js:54-68 | a first leg k times as long gives k times the total cost and k times the travel time |
| Costing.StoredVehicleCostIsNaN | routes/create.js:49-68 | for a vehicle without `fuelPrice`, a usable distance still yields a result, and its total cost is NaN |
| Costing.CalculateRevenue | routes/create.js:129-145 | NaN when distance, load, vehicle or capacity is falsy; a numeric revenue implies a finite total cost and a load factor in [0, 1], and is then 5 times distance times load factor minus total cost |
| Costing.RevenueValidIff | routes/create.js:130-142 | the revenue is a number exactly when all inputs are truthy, the load factor is in [0, 1] and the total cost is a number |
| Costing.RevenueValidForPositiveCapacity | routes/create.js:130-142 | for a positive capacity the revenue is a number exactly when the distance is truthy, 0 < load <= capacity and the total cost is a number |
| Costing.NegativeLoadAcceptedWithNegativeCapacity | routes/create.js:136-144 | capacity -10 and load -5 pass the load-factor test and yield revenue 250 |
| Costing.RevenueMayBeNegative | routes/create.js:144 | a total cost above the fare gives a negative revenue, returned as a number |
| Duration.Split | routes/create.js:116-119 | seconds lie in 0..60; for a non-negative time hours are non-negative and minutes in 0..59; for a negative time hours are negative and minutes in -60..0 |
| Duration.Layout | routes/create.js:121-124 | the hours segment appears iff hours > 0, the minutes segment iff minutes > 0 or hours > 0, the seconds segment always and last; no other segment, in hours-minutes-seconds order |
| Duration.FormatTime | routes/create.js:116-126 | the seconds segment comes last and no other segment is seconds; a number prints whole counts only; NaN prints only "NaN seconds" |
| Duration.SplitReassembles | routes/create.js:117-119 | for a non-negative time, 60·hours + minutes is the whole minutes and 3600·hours + 60·minutes + seconds is `Math.round(60 t)` |
| Duration.FormatTimeKeepsEverything | routes/create.js:116-126 | for a non-negative time the counts read back from the segments are the computed ones and add up to the time rounded to the second |
| Duration.NegativeTimeShowsOnlySeconds | routes/create.js:117-124 | a negative time shows only a seconds segment |
| Duration.ZeroMinutesExample | routes/create.js:116-126 | a zero time gives only "0 seconds" |
| Duration.NinetyMinutesExample | routes/create.js:116-126 | 90 minutes give 1 hour, 30 minutes, 0 seconds |
| Duration.SecondsCanReachSixty | routes/create.js:119-124 | 59.5 seconds show as 60 seconds, and one hour more as 1 hours 0 minutes 60 seconds: seconds are not carried |
| DurationText.DecimalRoundTrip | routes/create.js:122-124 | the decimal numeral printed for a count reads back as that count |
| DurationText.CountText | routes/create.js:122-124 | a printed count is a non-empty word without whitespace that reads back as the count, NaN and negative counts included |
| DurationText.AccumulateIsJoin | routes/create.js:121-124 | the appended pieces equal the segments' words joined by single spaces |
| DurationText.Trim | routes/create.js:126 | the trimmed text neither starts nor ends with whitespace, and it is a middle slice of the text with only whitespace before and after it |
| DurationText.TrimmedTextIsJoinedWords | routes/create.js:121-126 | for segments with seconds last, the trimmed pieces are exactly the words joined by single spaces |
| DurationText.TrimmedTextRoundTrip | routes/create.js:121-126 | for segments with seconds last, parsing the trimmed pieces gives back exactly those segments |
| DurationText.TimeText | routes/create.js:116-126 | parsing the text `formatTime` returns gives back exactly the formatted segments |
| DurationText.TimeTextIsJoinedWords | routes/create.js:121-126 | after trimming, the text is exactly the words joined by single spaces |
| DurationText.TextDeterminesRoundedTime | routes/create.js:116-126 | two non-negative times with the same text round to the same number of seconds |
| DurationText.NinetyMinutesText | routes/create.js:116-126 | 90 minutes print as "1 hours 30 minutes 0 seconds" |
| RouteCreation.StoredCost | routes/create.js:180 | the stored cost is always a number, whether the total or the fallback |
| RouteCreation.CreateFound | routes/create.js:163-191 | once the records are found: "Unable to calculate distance" exactly when the first lookup is unusable; a route is submitted exactly when both lookups are usable, after two calls, and it is the route built from the first distance and the second estimate; redirect exactly when the store accepts it |
| RouteCreation.CreateRoute | routes/create.js:148-192 | 400 exactly when no lookup threw, the vehicle was found and a city was not; a missing vehicle gives the catch-all 500; no directions call before all three records are found, at most two calls; "Unable to calculate distance" exactly when the first lookup is unusable; a route is submitted exactly when both lookups are usable; redirect exactly when the store accepts it |
| RouteCreation.SubmittedIsNewRoute | routes/create.js:152-185 | with all three records found and both lookups usable, a route is submitted, and it is the route built from those records, the first distance and the second estimate |
| RouteCreation.SubmittedRoute | routes/create.js:170-183 | the submitted route holds the three ids, the handler's distance, the total cost if truthy else distance times `fuelCost`, the formatted time, and the revenue computed from that same stored cost |
| RouteCreation.StoredVehicleAlwaysFallsBack | routes/create.js:170-180 | for a vehicle as stored, the submitted cost is always distance times `fuelCost` |
| RouteCreation.InvalidRevenueIsSubmitted | routes/create.js:173-185 | a zero regular load gives NaN revenue, and the route is still submitted |
| RouteCreation.SecondLookupFailureIsCaught | routes/create.js:164-170 | a failing second directions call ends on the catch-all 500 after two calls, with nothing submitted |
| RouteCreation.ReplyCodes | routes/create.js:159-190 | 400 iff a city is missing next to a found vehicle; 302 iff the route was accepted; 500 iff a lookup threw, the vehicle is missing, or a found trio's route was not stored |
| RouteCreation.ExampleWithFuelPrice | routes/create.js:170-183 | 100 km with the sample vehicle and fuel price 1.5: cost 75, revenue 175, "2 hours 0 minutes 0 seconds" |
| RouteCreation.ExampleAsStored | routes/create.js:170-183 | the same route with the vehicle as stored: cost 150, revenue 100 |

## Left out

- HTTP plumbing is not modelled: the Express router, request-body parsing and the JSON reply bodies. A reply is a status with its reason.
- The directions call itself is not modelled: the URL, the access token and the network. Each call's outcome is an input. The request puts latitude before longitude (`${y},${x}`). The model does not look at coordinates at all.
- The `!origin || !destination` guard in `getDistance` (lines 18-21) is not modelled, because it can never fire: both strings come from non-empty templates.
- Persistence is not modelled: `findById`, `save`, `populate` and the database connection. Lookup outcomes (record, null, thrown error) and the store's verdict on the new route are inputs. Whether the store accepts a NaN cost or revenue is part of that verdict.
- The `/city` and `/vehicle` creation endpoints (routes/create.js:77-114) are not modelled. They only build a record and save it. The `/vehicle` endpoint does not pass `regularLoad`, which the schema requires; that is a persistence-side rejection and not modelled.
- The read endpoints in `routes/game.js`, `app.js` and the Leaflet page `public/js/map.js` are not modelled. They contain no logic beyond I/O.
- Console logging is not modelled.
- Numbers.Div: a division by zero yields NaN. JavaScript gives ±Infinity when the numerator is non-zero. Infinity is truthy and prints as "Infinity", so a zero speed or fuel efficiency would print and fall back differently in JavaScript. Floating-point rounding is not modelled: the arithmetic is exact over the reals.
- Costing.CalculateCost: `calculateCost` never reads its `load` parameter, so the model does not take it.
- Directions.ResolveDistance: a leg's distance is always a number. An answer whose first leg lacks a distance would give NaN in JavaScript, and the model does not represent that.
- DurationText.Decimal: counts are printed as exact decimal numerals of any size. Above 2^53, JavaScript prints the shortest digit string that identifies the double, padded with zeros: 2^64 prints as "18446744073709552000", not "18446744073709551616". From 10^21 on it prints exponent form ("1e+21"), which the parser does not read back. Only the hours count can get that large, from a travel time of about 5.4·10^17 minutes (2^53 hours) on. `CountText`, `TimeText` and the round-trip lemmas promise nothing about how JavaScript prints such counts.
- DurationText.Trim: whitespace is space, the ASCII control whitespace, no-break space and the byte-order mark. JavaScript's `trim` also strips other Unicode space separators and the line terminators U+2028 and U+2029, which the formatted text never contains.
